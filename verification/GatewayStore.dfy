/** The one-time admission store: reservations, tokens, and their conservation. */
module GatewayStore {
  import opened PyString
  import opened GatewayExpiry

  /** The contents of the store. Tokens are held by their digest. */
  datatype AdmissionState = AdmissionState(operations: set<string>, proofs: set<string>,
                                           tokens: map<string, AdmissionRecord>, capacity: nat)

  type TokenDigest = string -> string

  const ATTEMPTS := 8

  /** The first draw of the token source whose digest is not in use. */
  function FirstFresh(draws: seq<string>, tokens: map<string, AdmissionRecord>,
                      digest: TokenDigest): (r: Option<string>)
    ensures r.Some? ==> r.value in draws && digest(r.value) !in tokens
    ensures r.None? ==> forall i | 0 <= i < |draws| :: digest(draws[i]) in tokens
  {
    if draws == [] then None
    else if digest(draws[0]) !in tokens then Some(draws[0])
    else FirstFresh(draws[1..], tokens, digest)
  }

  datatype Reservation = Reservation(state: AdmissionState, token: string)

  /** `_valid_store_token` */
  predicate UsableToken(token: string) { CanonicalText(token) && |token| <= 512 }

  /** What `reserve` does, for a given run of the token source. */
  function Reserve(st: AdmissionState, record: AdmissionRecord, draws: seq<string>, digest: TokenDigest)
    : Result<Reservation, string>
  {
    if record.operationId in st.operations || record.proofDigest in st.proofs then Err("PROOF_REPLAY_DETECTED")
    else if |st.operations| >= st.capacity then Err("ADMISSION_STORE_CAPACITY_EXCEEDED")
    else
      var token := FirstFresh(draws, st.tokens, digest);
      if token.None? then Err("ADMISSION_TOKEN_GENERATION_FAILED")
      else
        Ok(Reservation(AdmissionState(st.operations + {record.operationId}, st.proofs + {record.proofDigest},
                                      st.tokens[digest(token.value) := record], st.capacity), token.value))
  }

  /** The state after `consume`, and the record it returns. */
  function Consume(st: AdmissionState, token: string, digest: TokenDigest): (AdmissionState, Option<AdmissionRecord>) {
    if !CanonicalText(token) || digest(token) !in st.tokens then (st, None)
    else (st.(tokens := st.tokens - {digest(token)}), Some(st.tokens[digest(token)]))
  }

  /** `MemoryGatewayAdmissionStore`; every method runs under the lock. */
  class MemoryGatewayAdmissionStore {
    const maxRecords: nat
    const tokenDigest: TokenDigest
    var reservedOperations: set<string>
    var reservedProofs: set<string>
    var tokens: map<string, AdmissionRecord>

    ghost function State(): AdmissionState
      reads this
    {
      AdmissionState(reservedOperations, reservedProofs, tokens, maxRecords)
    }

    constructor (maxRecords: nat, tokenDigest: TokenDigest)
      ensures State() == AdmissionState({}, {}, map[], maxRecords) && this.tokenDigest == tokenDigest
    {
      this.maxRecords := maxRecords;
      this.tokenDigest := tokenDigest;
      reservedOperations, reservedProofs, tokens := {}, {}, map[];
    }

    /** `draws` are the values the token source gives to this call. */
    method ReserveRecord(record: AdmissionRecord, draws: seq<string>) returns (r: Result<string, string>)
      requires |draws| == ATTEMPTS
      modifies this
      ensures match Reserve(old(State()), record, draws, tokenDigest)
              case Ok(done) => State() == done.state && r == Ok(done.token)
              case Err(code) => State() == old(State()) && r == Err(code)
    {
      if record.operationId in reservedOperations || record.proofDigest in reservedProofs {
        return Err("PROOF_REPLAY_DETECTED");
      }
      if |reservedOperations| >= maxRecords {
        return Err("ADMISSION_STORE_CAPACITY_EXCEEDED");
      }
      for i := 0 to ATTEMPTS
        invariant State() == old(State())
        invariant FirstFresh(draws, tokens, tokenDigest) == FirstFresh(draws[i..], tokens, tokenDigest)
      {
        var token := draws[i];
        assert draws[i..][1..] == draws[i + 1..];
        if tokenDigest(token) !in tokens {
          reservedOperations := reservedOperations + {record.operationId};
          reservedProofs := reservedProofs + {record.proofDigest};
          tokens := tokens[tokenDigest(token) := record];
          return Ok(token);
        }
      }
      return Err("ADMISSION_TOKEN_GENERATION_FAILED");
    }

    method ConsumeToken(token: string) returns (r: Option<AdmissionRecord>)
      modifies this
      ensures (State(), r) == Consume(old(State()), token, tokenDigest)
    {
      if !CanonicalText(token) || tokenDigest(token) !in tokens {
        return None;
      }
      r := Some(tokens[tokenDigest(token)]);
      tokens := tokens - {tokenDigest(token)};
    }
  }

  // ----- runs -----

  datatype Call = ReserveCall(record: AdmissionRecord, draws: seq<string>) | ConsumeCall(token: string)

  /** A store with its history: the records reserved so far in order, which reservation each outstanding
      token belongs to, and the reservations consumed so far with the records returned for them. */
  datatype Ledger = Ledger(st: AdmissionState, reserved: seq<AdmissionRecord>, live: map<string, nat>,
                           consumed: seq<nat>, returned: seq<AdmissionRecord>)

  function StepCall(l: Ledger, call: Call, digest: TokenDigest): Ledger {
    match call
    case ReserveCall(record, draws) =>
      (match Reserve(l.st, record, draws, digest)
       case Err(_) => l
       case Ok(done) =>
         l.(st := done.state, reserved := l.reserved + [record], live := l.live[digest(done.token) := |l.reserved|]))
    case ConsumeCall(token) =>
      var (st, record) := Consume(l.st, token, digest);
      if record.None? || digest(token) !in l.live then l.(st := st)
      else
        l.(st := st, live := l.live - {digest(token)}, consumed := l.consumed + [l.live[digest(token)]],
           returned := l.returned + [record.value])
  }

  function RunCalls(l: Ledger, calls: seq<Call>, digest: TokenDigest): Ledger {
    if calls == [] then l else StepCall(RunCalls(l, calls[..|calls| - 1], digest), calls[|calls| - 1], digest)
  }

  function Empty(capacity: nat): Ledger { Ledger(AdmissionState({}, {}, map[], capacity), [], map[], [], []) }

  function OperationsOf(records: seq<AdmissionRecord>): set<string> { set r | r in records :: r.operationId }

  function ProofsOf(records: seq<AdmissionRecord>): set<string> { set r | r in records :: r.proofDigest }

  lemma RecordAppended(records: seq<AdmissionRecord>, r: AdmissionRecord)
    ensures OperationsOf(records + [r]) == OperationsOf(records) + {r.operationId}
    ensures ProofsOf(records + [r]) == ProofsOf(records) + {r.proofDigest}
  {
  }

  /** Conservation: reservations are the outstanding tokens and the consumes, each its own. */
  ghost predicate Balanced(l: Ledger) {
    && |l.st.operations| == |l.st.proofs| == |l.reserved| == |l.st.tokens| + |l.consumed|
    && |l.reserved| <= l.st.capacity
    && l.st.operations == OperationsOf(l.reserved) && l.st.proofs == ProofsOf(l.reserved)
  }

  /** Every outstanding token belongs to one reservation, and is held with its record. */
  ghost predicate LiveMatched(l: Ledger) {
    && l.live.Keys == l.st.tokens.Keys
    && (forall d | d in l.live :: l.live[d] < |l.reserved| && l.st.tokens[d] == l.reserved[l.live[d]])
    && (forall d, e | d in l.live && e in l.live && l.live[d] == l.live[e] :: d == e)
  }

  /** Every consume belongs to one reservation, no longer outstanding, and returned its record. */
  ghost predicate ConsumedMatched(l: Ledger) {
    && |l.returned| == |l.consumed|
    && (forall i | 0 <= i < |l.consumed| :: l.consumed[i] < |l.reserved| && l.returned[i] == l.reserved[l.consumed[i]])
    && (forall i, j | 0 <= i < j < |l.consumed| :: l.consumed[i] != l.consumed[j])
    && (forall i, d | 0 <= i < |l.consumed| && d in l.live :: l.consumed[i] != l.live[d])
  }

  ghost predicate Matched(l: Ledger) { LiveMatched(l) && ConsumedMatched(l) }

  lemma ReserveEffect(l: Ledger, record: AdmissionRecord, draws: seq<string>, digest: TokenDigest)
    requires Matched(l) && Reserve(l.st, record, draws, digest).Ok?
    ensures var m, d := StepCall(l, ReserveCall(record, draws), digest),
            digest(Reserve(l.st, record, draws, digest).value.token);
            && d !in l.live && m.live == l.live[d := |l.reserved|] && m.st.tokens == l.st.tokens[d := record]
            && m.reserved == l.reserved + [record] && m.consumed == l.consumed && m.returned == l.returned
            && m.st.operations == l.st.operations + {record.operationId} && record.operationId !in l.st.operations
            && m.st.proofs == l.st.proofs + {record.proofDigest} && record.proofDigest !in l.st.proofs
            && m.st.capacity == l.st.capacity && |l.st.operations| < l.st.capacity
  {
  }

  lemma ConsumeEffect(l: Ledger, token: string, digest: TokenDigest)
    requires Matched(l)
    ensures var m, d := StepCall(l, ConsumeCall(token), digest), digest(token);
            m == l || (d in l.live && m == l.(st := l.st.(tokens := l.st.tokens - {d}), live := l.live - {d},
                                               consumed := l.consumed + [l.live[d]],
                                               returned := l.returned + [l.reserved[l.live[d]]]))
  {
  }

  lemma ReserveKeepsBalance(l: Ledger, m: Ledger, record: AdmissionRecord, d: string)
    requires Balanced(l) && d !in l.st.tokens
    requires m.st.tokens == l.st.tokens[d := record] && m.reserved == l.reserved + [record] && m.consumed == l.consumed
    requires m.st.operations == l.st.operations + {record.operationId} && record.operationId !in l.st.operations
    requires m.st.proofs == l.st.proofs + {record.proofDigest} && record.proofDigest !in l.st.proofs
    requires m.st.capacity == l.st.capacity && |l.st.operations| < l.st.capacity
    ensures Balanced(m)
  {
    RecordAppended(l.reserved, record);
    MapSizes(l.st.tokens, d, record);
  }

  lemma StepKeepsBalance(l: Ledger, call: Call, digest: TokenDigest)
    requires Balanced(l) && Matched(l)
    ensures Balanced(StepCall(l, call, digest))
  {
    hide StepCall, Matched, OperationsOf, ProofsOf, FirstFresh, CanonicalText;
    TokensAreLive(l);
    match call {
      case ReserveCall(record, draws) =>
        if Reserve(l.st, record, draws, digest).Ok? {
          ReserveEffect(l, record, draws, digest);
          var d := digest(Reserve(l.st, record, draws, digest).value.token);
          ReserveKeepsBalance(l, StepCall(l, call, digest), record, d);
        } else {
          ReserveRefused(l, record, draws, digest);
        }
      case ConsumeCall(token) =>
        ConsumeEffect(l, token, digest);
        MapSizes(l.st.tokens, digest(token), AdmissionRecord("", "", "", "", "", ""));
    }
  }

  /** A refused reserve changes nothing. */
  lemma ReserveRefused(l: Ledger, record: AdmissionRecord, draws: seq<string>, digest: TokenDigest)
    requires Reserve(l.st, record, draws, digest).Err?
    ensures StepCall(l, ReserveCall(record, draws), digest) == l
  {
  }

  lemma MapSizes(m: map<string, AdmissionRecord>, d: string, r: AdmissionRecord)
    ensures |m[d := r]| == |m| + (if d in m then 0 else 1)
    ensures |m - {d}| == |m| - (if d in m then 1 else 0)
  {
  }

  lemma TokensAreLive(l: Ledger)
    requires Matched(l)
    ensures l.st.tokens.Keys == l.live.Keys
  {
  }

  lemma ReserveKeepsMatch(l: Ledger, m: Ledger, record: AdmissionRecord, d: string)
    requires Matched(l) && d !in l.live
    requires m.live == l.live[d := |l.reserved|] && m.st.tokens == l.st.tokens[d := record]
    requires m.reserved == l.reserved + [record] && m.consumed == l.consumed && m.returned == l.returned
    ensures Matched(m)
  {
    assert LiveMatched(m) by { hide ConsumedMatched; }
    ReserveKeepsConsumed(l, m, record, d);
  }

  lemma ReserveKeepsConsumed(l: Ledger, m: Ledger, record: AdmissionRecord, d: string)
    requires ConsumedMatched(l) && m.live == l.live[d := |l.reserved|]
    requires m.reserved == l.reserved + [record] && m.consumed == l.consumed && m.returned == l.returned
    ensures ConsumedMatched(m)
  {
    forall i, e | 0 <= i < |m.consumed| && e in m.live ensures m.consumed[i] != m.live[e] {
      assert l.consumed[i] < |l.reserved|;
    }
  }

  lemma ConsumeKeepsMatch(l: Ledger, m: Ledger, d: string)
    requires Matched(l) && d in l.live
    requires m == l.(st := l.st.(tokens := l.st.tokens - {d}), live := l.live - {d},
                     consumed := l.consumed + [l.live[d]], returned := l.returned + [l.reserved[l.live[d]]])
    ensures Matched(m)
  {
    assert LiveMatched(m) by { hide ConsumedMatched; }
  }

  lemma StepKeepsMatch(l: Ledger, call: Call, digest: TokenDigest)
    requires Matched(l)
    ensures Matched(StepCall(l, call, digest))
  {
    hide StepCall, Matched, FirstFresh, CanonicalText;
    match call {
      case ReserveCall(record, draws) =>
        if Reserve(l.st, record, draws, digest).Ok? {
          ReserveEffect(l, record, draws, digest);
          var d := digest(Reserve(l.st, record, draws, digest).value.token);
          ReserveKeepsMatch(l, StepCall(l, call, digest), record, d);
        } else {
          ReserveRefused(l, record, draws, digest);
        }
      case ConsumeCall(token) =>
        ConsumeEffect(l, token, digest);
        if StepCall(l, call, digest) != l { ConsumeKeepsMatch(l, StepCall(l, call, digest), digest(token)); }
    }
  }

  /** Over any run: reserved operations = reserved proofs = outstanding tokens + consumes, at most the capacity,
      and every consume returned the record of its own earlier reserve. */
  lemma {:induction false} Conservation(capacity: nat, calls: seq<Call>, digest: TokenDigest)
    ensures Balanced(RunCalls(Empty(capacity), calls, digest)) && Matched(RunCalls(Empty(capacity), calls, digest))
  {
    hide StepCall;
    if calls == [] {
    } else {
      var n := |calls| - 1;
      Conservation(capacity, calls[..n], digest);
      StepKeepsBalance(RunCalls(Empty(capacity), calls[..n], digest), calls[n], digest);
      StepKeepsMatch(RunCalls(Empty(capacity), calls[..n], digest), calls[n], digest);
    }
  }

  /** The ledger's history is what the store did: a consume returns a record exactly when it is entered. */
  lemma ConsumesAreEntered(l: Ledger, token: string, digest: TokenDigest)
    requires Matched(l)
    ensures var (st, record) := Consume(l.st, token, digest);
            var m := StepCall(l, ConsumeCall(token), digest);
            m.st == st && m.returned == (if record.Some? then l.returned + [record.value] else l.returned)
  {
  }

  // ----- what a call grants -----

  /** `reserve` grants exactly a new operation with a new proof, while there is room and some draw has a digest not in
      use; what it grants is one more of each, and a draw as the token of the record. */
  lemma ReserveGranted(st: AdmissionState, r: AdmissionRecord, draws: seq<string>, digest: TokenDigest)
    ensures Reserve(st, r, draws, digest).Ok? <==>
            && r.operationId !in st.operations && r.proofDigest !in st.proofs && |st.operations| < st.capacity
            && exists i :: 0 <= i < |draws| && digest(draws[i]) !in st.tokens
    ensures var known := r.operationId in st.operations || r.proofDigest in st.proofs;
            && (Reserve(st, r, draws, digest) == Err("PROOF_REPLAY_DETECTED") <==> known)
            && (Reserve(st, r, draws, digest) == Err("ADMISSION_STORE_CAPACITY_EXCEEDED") <==>
                !known && |st.operations| >= st.capacity)
            && (Reserve(st, r, draws, digest) == Err("ADMISSION_TOKEN_GENERATION_FAILED") <==>
                !known && |st.operations| < st.capacity && forall i | 0 <= i < |draws| :: digest(draws[i]) in st.tokens)
    ensures Reserve(st, r, draws, digest).Ok? ==>
              var done := Reserve(st, r, draws, digest).value;
              && done.token in draws && digest(done.token) !in st.tokens
              && done.state.operations == st.operations + {r.operationId}
                 && done.state.proofs == st.proofs + {r.proofDigest}
              && done.state.tokens == st.tokens[digest(done.token) := r] && done.state.capacity == st.capacity
  {
    if i :| 0 <= i < |draws| && digest(draws[i]) !in st.tokens {
      assert FirstFresh(draws, st.tokens, digest).Some?;
    } else {
      forall x | x in draws ensures digest(x) in st.tokens {
        var k :| 0 <= k < |draws| && draws[k] == x;
      }
    }
  }

  function History(st: AdmissionState): Ledger { Ledger(st, [], map[], [], []) }

  predicate Consumes(call: Call, d: string, digest: TokenDigest) { call.ConsumeCall? && digest(call.token) == d }

  lemma {:induction false} TokenStays(l: Ledger, calls: seq<Call>, d: string, digest: TokenDigest)
    requires d in l.st.tokens && forall i | 0 <= i < |calls| :: !Consumes(calls[i], d, digest)
    ensures var m := RunCalls(l, calls, digest); d in m.st.tokens && m.st.tokens[d] == l.st.tokens[d]
  {
    if calls == [] {
    } else {
      var n := |calls| - 1;
      assert forall i | 0 <= i < n :: calls[..n][i] == calls[i];
      TokenStays(l, calls[..n], d, digest);
      var before := RunCalls(l, calls[..n], digest);
      if calls[n].ReserveCall? { ReserveGranted(before.st, calls[n].record, calls[n].draws, digest); }
      assert !Consumes(calls[n], d, digest);
    }
  }

  /** A granted token is worth its record exactly once: after any calls that do not consume it, consuming it returns the
      record it was reserved for, and consuming it again returns nothing. */
  lemma TokenIsWorthItsRecord(st: AdmissionState, r: AdmissionRecord, draws: seq<string>, calls: seq<Call>,
                              digest: TokenDigest)
    requires Reserve(st, r, draws, digest).Ok? && CanonicalText(Reserve(st, r, draws, digest).value.token)
    requires var d := digest(Reserve(st, r, draws, digest).value.token);
             forall i | 0 <= i < |calls| :: !Consumes(calls[i], d, digest)
    ensures var done := Reserve(st, r, draws, digest).value;
            var later := RunCalls(History(done.state), calls, digest).st;
            var (after, record) := Consume(later, done.token, digest);
            && record == Some(r) && after == later.(tokens := later.tokens - {digest(done.token)})
            && Consume(after, done.token, digest) == (after, None)
  {
    hide CanonicalText, RunCalls, Reserve;
    var done := Reserve(st, r, draws, digest).value;
    ReserveGranted(st, r, draws, digest);
    TokenStays(History(done.state), calls, digest(done.token), digest);
  }

  /** A token that is not canonical or not outstanding is worth nothing, and presenting it changes nothing. */
  lemma OtherTokens(st: AdmissionState, token: string, digest: TokenDigest)
    ensures Consume(st, token, digest).1.Some? <==> CanonicalText(token) && digest(token) in st.tokens
    ensures Consume(st, token, digest).1.None? ==> Consume(st, token, digest).0 == st
  {
  }
}
