/** The append-only attestation store: compare-and-append, and what it keeps. */
module AttestationStore {
  import opened PyString
  import opened Attestations

  datatype Head = Head(operationId: string, subjectDigest: string, proofDigest: string, sequence: int,
                       attestationId: string, attestationDigest: string)

  /** The contents of the store. */
  datatype StoreState = StoreState(heads: map<string, Head>, records: map<string, seq<Signed>>,
                                   seenIds: set<string>, seenDigests: set<string>, capacity: nat)

  function Records(st: StoreState, op: string): seq<Signed> { if op in st.records then st.records[op] else [] }

  function HeadOf(a: Attestation): Head {
    Head(a.operationId, a.subjectDigest, a.proofDigest, a.sequence, a.attestationId, a.attestationDigest)
  }

  /** `sum(len(records) for records in self._records.values())` */
  ghost function Total(records: map<string, seq<Signed>>): (n: nat)
    decreases |records|
  {
    if records == map[] then 0
    else
      var op :| op in records;
      |records[op]| + Total(records - {op})
  }

  /** The store after an entry is filed under its operation. */
  function Filed(st: StoreState, s: Signed): StoreState {
    var a := s.attestation;
    StoreState(st.heads[a.operationId := HeadOf(a)], st.records[a.operationId := Records(st, a.operationId) + [s]],
               st.seenIds + {a.attestationId}, st.seenDigests + {a.attestationDigest}, st.capacity)
  }

  function NextSequence(st: StoreState, op: string): int { if op in st.heads then st.heads[op].sequence + 1 else 0 }

  function NextPrevious(st: StoreState, op: string): string {
    if op in st.heads then st.heads[op].attestationDigest else GENESIS
  }

  /** Why `append` refuses, if it does, once the entry is known to be intact; in the order of the checks.
      `total` is the number of records held. */
  function AppendConflict(st: StoreState, total: nat, a: Attestation, expectedSequence: int, expectedPrevious: string)
    : Option<string>
  {
    var op := a.operationId;
    if total >= st.capacity then Some("ATTESTATION_STORE_CAPACITY_EXCEEDED")
    else if expectedSequence != NextSequence(st, op) || a.sequence != NextSequence(st, op) then
      Some("ATTESTATION_SEQUENCE_CONFLICT")
    else if expectedPrevious != NextPrevious(st, op) || a.previous != NextPrevious(st, op) then
      Some("ATTESTATION_PREDECESSOR_CONFLICT")
    else if op in st.heads && st.heads[op].subjectDigest != a.subjectDigest then Some("ATTESTATION_SUBJECT_TRANSPLANT")
    else if op in st.heads && st.heads[op].proofDigest != a.proofDigest then Some("ATTESTATION_PROOF_TRANSPLANT")
    else if a.attestationId in st.seenIds || a.attestationDigest in st.seenDigests
      then Some("ATTESTATION_REPLAY_DETECTED")
    else None
  }

  /** What `append` does: the new state, or the reason for none. */
  ghost function Append(h: AttestationHash, st: StoreState, s: Signed, expectedSequence: int, expectedPrevious: string)
    : Result<StoreState, string>
  {
    if IntegrityReasons(h, s.attestation, None) != {} then Err("INVALID_ATTESTATION_IN_STORE")
    else
      var conflict := AppendConflict(st, Total(st.records), s.attestation, expectedSequence, expectedPrevious);
      if conflict.Some? then Err(conflict.value) else Ok(Filed(st, s))
  }

  // ----- what every store state satisfies -----

  /** One operation's records: intact, linked from the genesis, under one anchor, and the head is the last. */
  ghost predicate ChainHeld(h: AttestationHash, st: StoreState, op: string)
    requires op in st.records
  {
    var chain := st.records[op];
    && chain != [] && op in st.heads
    && (forall i | 0 <= i < |chain| :: IntegrityReasons(h, chain[i].attestation, None) == {} && Linked(chain, i))
    && chain[0].attestation.operationId == op
    && st.heads[op] == HeadOf(chain[|chain| - 1].attestation)
  }

  ghost predicate Held(st: StoreState, op: string, i: int) { op in st.records && 0 <= i < |st.records[op]| }

  function At(st: StoreState, op: string, i: int): Attestation
    requires op in st.records && 0 <= i < |st.records[op]|
  {
    st.records[op][i].attestation
  }

  /** No identifier and no digest is held twice, under any operation. */
  ghost predicate NoReplay(st: StoreState) {
    forall op, i, op', i' | Held(st, op, i) && Held(st, op', i') && (op, i) != (op', i') ::
      && At(st, op, i).attestationId != At(st, op', i').attestationId
      && At(st, op, i).attestationDigest != At(st, op', i').attestationDigest
  }

  ghost predicate AllSeen(st: StoreState) {
    forall op, i | Held(st, op, i) ::
      At(st, op, i).attestationId in st.seenIds && At(st, op, i).attestationDigest in st.seenDigests
  }

  /** Only what is held counts as seen. */
  ghost predicate SeenHeld(st: StoreState) {
    && (forall x | x in st.seenIds :: exists op, i :: Held(st, op, i) && At(st, op, i).attestationId == x)
    && (forall x | x in st.seenDigests :: exists op, i :: Held(st, op, i) && At(st, op, i).attestationDigest == x)
  }

  ghost predicate StoreInv(h: AttestationHash, st: StoreState) {
    && st.heads.Keys == st.records.Keys
    && (forall op | op in st.records :: ChainHeld(h, st, op))
    && NoReplay(st) && AllSeen(st) && SeenHeld(st)
    && Total(st.records) == |st.seenIds| == |st.seenDigests|
    && Total(st.records) <= st.capacity
  }

  lemma {:induction false} TotalWithout(m: map<string, seq<Signed>>, op: string)
    requires op in m
    ensures Total(m) == |m[op]| + Total(m - {op})
    decreases |m|
  {
    var first :| first in m && Total(m) == |m[first]| + Total(m - {first});
    if first != op {
      TotalWithout(m - {first}, op);
      TotalWithout(m - {op}, first);
      assert m - {first} - {op} == m - {op} - {first};
    }
  }

  lemma TotalAppend(m: map<string, seq<Signed>>, op: string, chain: seq<Signed>)
    ensures Total(m[op := chain]) == Total(m) - (if op in m then |m[op]| else 0) + |chain|
  {
    TotalWithout(m[op := chain], op);
    if op in m {
      TotalWithout(m, op);
      assert m[op := chain] - {op} == m - {op};
    } else {
      assert m[op := chain] - {op} == m;
    }
  }

  lemma EmptyStore(h: AttestationHash, capacity: nat)
    ensures StoreInv(h, StoreState(map[], map[], {}, {}, capacity))
  {
  }

  /** `t` holds every record of `s`, in place. */
  ghost predicate Extends(s: StoreState, t: StoreState) {
    forall op | op in s.records :: op in t.records && s.records[op] <= t.records[op]
  }

  lemma AppendKeepsChains(h: AttestationHash, st: StoreState, s: Signed, expectedSequence: int,
                          expectedPrevious: string)
    requires StoreInv(h, st) && Append(h, st, s, expectedSequence, expectedPrevious).Ok?
    ensures forall op | op in Filed(st, s).records :: ChainHeld(h, Filed(st, s), op)
    ensures Records(Filed(st, s), s.attestation.operationId) == Records(st, s.attestation.operationId) + [s]
    ensures Filed(st, s).heads.Keys == Filed(st, s).records.Keys
  {
    hide IntegrityReasons, NoReplay, AllSeen, SeenHeld, Total, ChainHeld;
    var t, op := Filed(st, s), s.attestation.operationId;
    forall o | o in t.records ensures ChainHeld(h, t, o) {
      if o == op { OwnChain(h, st, s, expectedSequence, expectedPrevious); } else { OtherChain(h, st, s, o); }
    }
  }

  lemma OtherChain(h: AttestationHash, st: StoreState, s: Signed, o: string)
    requires o in st.records && o != s.attestation.operationId && ChainHeld(h, st, o)
    ensures ChainHeld(h, Filed(st, s), o)
  {
    hide IntegrityReasons, Linked;
  }

  lemma OwnChain(h: AttestationHash, st: StoreState, s: Signed, expectedSequence: int, expectedPrevious: string)
    requires var op := s.attestation.operationId; op in st.heads <==> op in st.records
    requires s.attestation.operationId in st.records ==> ChainHeld(h, st, s.attestation.operationId)
    requires Append(h, st, s, expectedSequence, expectedPrevious).Ok?
    ensures ChainHeld(h, Filed(st, s), s.attestation.operationId)
  {
    hide IntegrityReasons, Total, Linked;
    var op := s.attestation.operationId;
    if op in st.records {
      HeadSequence(h, st, op);
      FirstAnchors(h, st, op);
    }
    LinkNext(Records(st, op), s);
  }

  /** The head carries the anchor of the whole chain. */
  lemma FirstAnchors(h: AttestationHash, st: StoreState, op: string)
    requires op in st.records && ChainHeld(h, st, op)
    ensures var first := st.records[op][0].attestation;
            && st.heads[op].subjectDigest == first.subjectDigest && st.heads[op].proofDigest == first.proofDigest
            && first.operationId == op
  {
    hide IntegrityReasons;
    assert Linked(st.records[op], |st.records[op]| - 1);
  }

  lemma LinkNext(chain: seq<Signed>, s: Signed)
    requires forall i | 0 <= i < |chain| :: Linked(chain, i)
    requires s.attestation.sequence == |chain|
    requires s.attestation.previous == PreviousDigest(chain, |chain|)
    requires chain != [] ==>
               var a, first := s.attestation, chain[0].attestation;
               a.operationId == first.operationId && a.subjectDigest == first.subjectDigest
                 && a.proofDigest == first.proofDigest
    ensures forall i | 0 <= i <= |chain| :: Linked(chain + [s], i)
  {
    forall i | 0 <= i < |chain| ensures Linked(chain + [s], i) { assert Linked(chain, i); }
  }

  lemma AppendKeepsUnique(h: AttestationHash, st: StoreState, s: Signed, expectedSequence: int,
                          expectedPrevious: string)
    requires StoreInv(h, st) && Append(h, st, s, expectedSequence, expectedPrevious).Ok?
    ensures NoReplay(Filed(st, s)) && AllSeen(Filed(st, s))
  {
    hide IntegrityReasons, ChainHeld, Total, SeenHeld;
    var t, op := Filed(st, s), s.attestation.operationId;
    var n := |Records(st, op)|;
    forall o, i | Held(t, o, i) && (o, i) != (op, n) ensures Held(st, o, i) && At(t, o, i) == At(st, o, i) { }
    assert Held(t, op, n) && At(t, op, n) == s.attestation;
  }

  lemma AppendKeepsSeen(h: AttestationHash, st: StoreState, s: Signed)
    requires SeenHeld(st)
    ensures SeenHeld(Filed(st, s))
  {
    var t, op := Filed(st, s), s.attestation.operationId;
    var n := |Records(st, op)|;
    assert Held(t, op, n) && At(t, op, n) == s.attestation;
    forall o, i | Held(st, o, i) ensures Held(t, o, i) && At(t, o, i) == At(st, o, i) { }
  }

  /** Neither the identifier nor the digest of `a` is held under any operation. */
  ghost predicate Unheld(st: StoreState, a: Attestation) {
    forall op, i | Held(st, op, i) ::
      At(st, op, i).attestationId != a.attestationId && At(st, op, i).attestationDigest != a.attestationDigest
  }

  /** `append` grants exactly what keeps the records a verifiable history: an intact entry that links to the records
      its operation has, at the position and after the digest the caller expects, with an identifier and a digest
      held nowhere in the store, while there is room. */
  lemma AppendGranted(h: AttestationHash, st: StoreState, s: Signed, expectedSequence: int, expectedPrevious: string)
    requires StoreInv(h, st)
    ensures var chain := Records(st, s.attestation.operationId);
            Append(h, st, s, expectedSequence, expectedPrevious).Ok? <==>
            && Intact(h, s.attestation) && Total(st.records) < st.capacity
            && expectedSequence == |chain| && expectedPrevious == PreviousDigest(chain, |chain|)
            && Linked(chain + [s], |chain|) && Unheld(st, s.attestation)
  {
    hide IntegrityReasons, Intact, NoReplay, AllSeen, SeenHeld, Total, ChainHeld, Linked, Unheld;
    IntegrityMeans(h, s.attestation, None);
    SeenIsHeld(st, s.attestation);
    NextPosition(h, st, s);
  }

  /** Why an append is refused, in terms of the records: the first of the reasons in this order. */
  lemma AppendRefused(h: AttestationHash, st: StoreState, s: Signed, expectedSequence: int, expectedPrevious: string)
    requires StoreInv(h, st) && Append(h, st, s, expectedSequence, expectedPrevious).Err?
    ensures var a := s.attestation;
            var chain := Records(st, a.operationId);
            var previous := PreviousDigest(chain, |chain|);
            Append(h, st, s, expectedSequence, expectedPrevious).error ==
            if !Intact(h, a) then "INVALID_ATTESTATION_IN_STORE"
            else if Total(st.records) >= st.capacity then "ATTESTATION_STORE_CAPACITY_EXCEEDED"
            else if expectedSequence != |chain| || a.sequence != |chain| then "ATTESTATION_SEQUENCE_CONFLICT"
            else if expectedPrevious != previous || a.previous != previous then "ATTESTATION_PREDECESSOR_CONFLICT"
            else if chain != [] && chain[0].attestation.subjectDigest != a.subjectDigest then
              "ATTESTATION_SUBJECT_TRANSPLANT"
            else if chain != [] && chain[0].attestation.proofDigest != a.proofDigest then
              "ATTESTATION_PROOF_TRANSPLANT"
            else "ATTESTATION_REPLAY_DETECTED"
  {
    hide IntegrityReasons, Intact, NoReplay, AllSeen, SeenHeld, Total, ChainHeld, Linked;
    IntegrityMeans(h, s.attestation, None);
    NextPosition(h, st, s);
    var op := s.attestation.operationId;
    if op in st.records { FirstAnchors(h, st, op); }
    HeadIsLast(h, st, op);
  }

  /** In terms of the records: the position after the head is the end of the chain. */
  lemma NextPosition(h: AttestationHash, st: StoreState, s: Signed)
    requires var op := s.attestation.operationId;
             (op in st.heads <==> op in st.records) && (op in st.records ==> ChainHeld(h, st, op))
    ensures var a := s.attestation;
            var op := a.operationId;
            var chain := Records(st, op);
            && NextSequence(st, op) == |chain| && NextPrevious(st, op) == PreviousDigest(chain, |chain|)
            && (Linked(chain + [s], |chain|) <==>
                && a.sequence == |chain| && a.previous == PreviousDigest(chain, |chain|)
                && (op in st.heads ==>
                      st.heads[op].subjectDigest == a.subjectDigest && st.heads[op].proofDigest == a.proofDigest))
  {
    hide Intact, IntegrityReasons;
    var op := s.attestation.operationId;
    var chain := Records(st, op);
    if op in st.records {
      HeadSequence(h, st, op);
      FirstAnchors(h, st, op);
    }
    assert (chain + [s])[|chain|] == s;
    assert PreviousDigest(chain + [s], |chain|) == PreviousDigest(chain, |chain|);
  }

  lemma SeenIsHeld(st: StoreState, a: Attestation)
    requires AllSeen(st) && SeenHeld(st)
    ensures a.attestationId !in st.seenIds && a.attestationDigest !in st.seenDigests <==> Unheld(st, a)
  {
    hide At;
    if a.attestationId in st.seenIds || a.attestationDigest in st.seenDigests {
      if a.attestationId in st.seenIds {
        var op, i :| Held(st, op, i) && At(st, op, i).attestationId == a.attestationId;
      } else {
        var op, i :| Held(st, op, i) && At(st, op, i).attestationDigest == a.attestationDigest;
      }
    } else {
      forall op, i | Held(st, op, i)
        ensures At(st, op, i).attestationId != a.attestationId
                && At(st, op, i).attestationDigest != a.attestationDigest { }
    }
  }

  /** A successful append keeps the invariant and extends the store by one record. */
  lemma AppendKeepsInv(h: AttestationHash, st: StoreState, s: Signed, expectedSequence: int, expectedPrevious: string)
    requires StoreInv(h, st) && Append(h, st, s, expectedSequence, expectedPrevious).Ok?
    ensures StoreInv(h, Append(h, st, s, expectedSequence, expectedPrevious).value)
    ensures Extends(st, Append(h, st, s, expectedSequence, expectedPrevious).value)
  {
    hide IntegrityReasons, ChainHeld, NoReplay, AllSeen, SeenHeld, Total;
    AppendKeepsChains(h, st, s, expectedSequence, expectedPrevious);
    AppendKeepsUnique(h, st, s, expectedSequence, expectedPrevious);
    AppendKeepsSeen(h, st, s);
    TotalAppend(st.records, s.attestation.operationId, Records(st, s.attestation.operationId) + [s]);
  }

  /** After one append at a chain position, no other append at that position succeeds, ever. */
  lemma PositionGrantedOnce(h: AttestationHash, st: StoreState, s: Signed, t: StoreState, later: StoreState,
                            r: Signed, sequence: int, previousS: string, previousR: string)
    requires StoreInv(h, st) && StoreInv(h, later)
    requires Append(h, st, s, sequence, previousS) == Ok(t) && Extends(t, later)
    requires r.attestation.operationId == s.attestation.operationId
    ensures Append(h, later, r, sequence, previousR).Err?
  {
    hide IntegrityReasons, StoreInv, Append;
    var op := s.attestation.operationId;
    AppendPosition(h, st, s, sequence, previousS);
    FiledRecords(h, st, s, sequence, previousS);
    assert |Records(t, op)| <= |Records(later, op)|;
    if Append(h, later, r, sequence, previousR).Ok? { AppendPosition(h, later, r, sequence, previousR); }
  }

  /** The position an append is granted is the number of records the operation has. */
  lemma AppendPosition(h: AttestationHash, st: StoreState, s: Signed, sequence: int, previous: string)
    requires StoreInv(h, st) && Append(h, st, s, sequence, previous).Ok?
    ensures sequence == |Records(st, s.attestation.operationId)|
  {
    hide IntegrityReasons, NoReplay, AllSeen, SeenHeld, Total, ChainHeld;
    var op := s.attestation.operationId;
    if op in st.records {
      assert ChainHeld(h, st, op);
      HeadSequence(h, st, op);
    }
  }

  lemma FiledRecords(h: AttestationHash, st: StoreState, s: Signed, sequence: int, previous: string)
    requires Append(h, st, s, sequence, previous).Ok?
    ensures var t, op := Append(h, st, s, sequence, previous).value, s.attestation.operationId;
            op in t.records && Records(t, op) == Records(st, op) + [s]
  {
    hide IntegrityReasons, Total, AppendConflict;
  }

  lemma HeldChain(h: AttestationHash, st: StoreState, op: string)
    requires StoreInv(h, st) && op in st.records
    ensures ChainHeld(h, st, op) && Distinct(st.records[op])
  {
    hide ChainHeld, AllSeen, SeenHeld, Total;
    var chain := st.records[op];
    forall i, j | 0 <= i < j < |chain|
      ensures chain[i].attestation.attestationId != chain[j].attestation.attestationId
      ensures chain[i].attestation.attestationDigest != chain[j].attestation.attestationDigest
    {
      assert Held(st, op, i) && Held(st, op, j);
      assert At(st, op, i) == chain[i].attestation && At(st, op, j) == chain[j].attestation;
    }
  }

  lemma HeadIsLast(h: AttestationHash, st: StoreState, op: string)
    requires StoreInv(h, st)
    ensures var chain := Records(st, op);
            && (op in st.heads <==> chain != [])
            && (chain != [] ==> st.heads[op] == HeadOf(chain[|chain| - 1].attestation))
  {
    hide NoReplay, AllSeen, SeenHeld, IntegrityReasons, Linked, Total;
    assert op in st.records ==> ChainHeld(h, st, op);
  }

  lemma HeadSequence(h: AttestationHash, st: StoreState, op: string)
    requires op in st.records && ChainHeld(h, st, op)
    ensures NextSequence(st, op) == |st.records[op]|
  {
    var chain := st.records[op];
    assert Linked(chain, |chain| - 1);
  }

  /** What was appended is read back at its position, whatever was appended since. */
  lemma ReadBackHolds(h: AttestationHash, st: StoreState, s: Signed, t: StoreState, later: StoreState,
                      sequence: int, previous: string)
    requires StoreInv(h, st) && Append(h, st, s, sequence, previous) == Ok(t) && Extends(t, later)
    ensures var chain := Records(later, s.attestation.operationId); 0 <= sequence < |chain| && chain[sequence] == s
  {
    hide IntegrityReasons, StoreInv, Append;
    var op := s.attestation.operationId;
    AppendPosition(h, st, s, sequence, previous);
    FiledRecords(h, st, s, sequence, previous);
    assert t.records[op] <= later.records[op];
    assert t.records[op][sequence] == s;
  }

  // ----- the class -----

  predicate ValidHeadText(v: Head) {
    && CanonicalText(v.operationId) && CanonicalText(v.attestationId) && v.sequence >= 0
    && ValidDigest(v.subjectDigest) && ValidDigest(v.proofDigest) && ValidDigest(v.attestationDigest)
  }

  /** `validate_attestation_store_head`; the identifiers are compared when given. */
  function HeadProblem(v: Head, operationId: string, subjectDigest: string, proofDigest: string, sequence: int,
                       ids: Option<(string, string)>): Option<string> {
    if !ValidHeadText(v) then Some("INVALID_ATTESTATION_STORE_OUTPUT")
    else if v.operationId != operationId then Some("ATTESTATION_STORE_OPERATION_MISMATCH")
    else if v.subjectDigest != subjectDigest then Some("ATTESTATION_STORE_SUBJECT_MISMATCH")
    else if v.proofDigest != proofDigest then Some("ATTESTATION_STORE_PROOF_MISMATCH")
    else if v.sequence != sequence then Some("ATTESTATION_STORE_SEQUENCE_MISMATCH")
    else if ids.Some? && v.attestationId != ids.value.0 then Some("ATTESTATION_STORE_ID_MISMATCH")
    else if ids.Some? && v.attestationDigest != ids.value.1 then Some("ATTESTATION_STORE_DIGEST_MISMATCH")
    else None
  }

  /** `MemoryAttestationStore`; every method runs under the lock. */
  class MemoryAttestationStore {
    const maxAttestations: nat
    const hash: AttestationHash
    var heads: map<string, Head>
    var records: map<string, seq<Signed>>
    var seenIds: set<string>
    var seenDigests: set<string>

    ghost function State(): StoreState
      reads this
    {
      StoreState(heads, records, seenIds, seenDigests, maxAttestations)
    }

    ghost predicate Valid()
      reads this
    {
      StoreInv(hash, State())
    }

    constructor (maxAttestations: nat, hash: AttestationHash)
      ensures Valid() && this.hash == hash
      ensures State() == StoreState(map[], map[], {}, {}, maxAttestations)
    {
      this.maxAttestations := maxAttestations;
      this.hash := hash;
      heads, records, seenIds, seenDigests := map[], map[], {}, {};
    }

    /** `head` */
    method GetHead(operationId: string) returns (r: Result<Option<Head>, string>)
      requires Valid()
      ensures operationId != "" ==>
                var chain := Records(State(), operationId);
                r == Ok(if chain == [] then None else Some(HeadOf(chain[|chain| - 1].attestation)))
      ensures r == if operationId == "" then Err("INVALID_ATTESTATION_OPERATION_ID")
                   else Ok(if operationId in heads then Some(heads[operationId]) else None)
    {
      hide StoreInv, HeadOf;
      if operationId == "" {
        return Err("INVALID_ATTESTATION_OPERATION_ID");
      }
      HeadIsLast(hash, State(), operationId);
      r := Ok(if operationId in heads then Some(heads[operationId]) else None);
    }

    /** The number of records held, by adding up the operations in some order. */
    method CountRecords() returns (total: nat)
      ensures total == Total(records)
    {
      total := 0;
      var rest := records;
      while rest != map[]
        invariant Total(records) == total + Total(rest)
        decreases |rest|
      {
        var op :| op in rest;
        TotalWithout(rest, op);
        total := total + |rest[op]|;
        rest := rest - {op};
      }
    }

    /** `append` */
    method AppendSigned(s: Signed, expectedSequence: int, expectedPrevious: string) returns (r: Result<Head, string>)
      requires Valid()
      modifies this
      ensures Valid() && Extends(old(State()), State())
      ensures match Append(hash, old(State()), s, expectedSequence, expectedPrevious)
              case Ok(after) => State() == after && r == Ok(HeadOf(s.attestation))
              case Err(code) => State() == old(State()) && r == Err(code)
    {
      hide IntegrityReasons, StoreInv, Total;
      if IntegrityReasons(hash, s.attestation, None) != {} {
        return Err("INVALID_ATTESTATION_IN_STORE");
      }
      var total := CountRecords();
      var conflict := AppendConflict(StoreState(heads, records, seenIds, seenDigests, maxAttestations), total,
                                     s.attestation, expectedSequence, expectedPrevious);
      if conflict.Some? {
        return Err(conflict.value);
      }
      AppendKeepsInv(hash, State(), s, expectedSequence, expectedPrevious);
      var op := s.attestation.operationId;
      seenIds := seenIds + {s.attestation.attestationId};
      seenDigests := seenDigests + {s.attestation.attestationDigest};
      records := records[op := (if op in records then records[op] else []) + [s]];
      heads := heads[op := HeadOf(s.attestation)];
      r := Ok(HeadOf(s.attestation));
    }

    /** `read` */
    method Read(operationId: string, sequence: int) returns (r: Result<Option<Signed>, string>)
      ensures operationId != "" && sequence >= 0 ==>
                var chain := Records(State(), operationId);
                r == Ok(if sequence < |chain| then Some(chain[sequence]) else None)
      ensures operationId == "" ==> r == Err("INVALID_ATTESTATION_OPERATION_ID")
      ensures operationId != "" && sequence < 0 ==> r == Err("INVALID_ATTESTATION_SEQUENCE")
    {
      if operationId == "" {
        return Err("INVALID_ATTESTATION_OPERATION_ID");
      }
      if sequence < 0 {
        return Err("INVALID_ATTESTATION_SEQUENCE");
      }
      var chain := if operationId in records then records[operationId] else [];
      r := Ok(if sequence < |chain| then Some(chain[sequence]) else None);
    }
  }
}
