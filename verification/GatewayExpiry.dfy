/** When a gateway admission expires, and the record it is kept in. */
module GatewayExpiry {
  import opened PyString
  import opened TimestampOrder
  import opened Rfc3339
  import opened Evidences
  import opened Verifier
  import opened Validity

  /** `expires_at` of an evidence item: the parsed stamp and the text. */
  datatype Expiry = Expiry(parsed: Stamp, raw: string)

  /** The stamp of the expiry text of one item, or why there is none. */
  function ItemExpiry(e: Evidence): Result<Expiry, string> {
    if e.expiresAt.None? || e.expiresAt.value == "" then Err("GATEWAY_EVIDENCE_EXPIRY_REQUIRED")
    else if Parse(e.expiresAt.value).None? then Err("INVALID_GATEWAY_EVIDENCE_EXPIRY")
    else Ok(Expiry(Parsed(e.expiresAt.value), e.expiresAt.value))
  }

  /** `min(expiries, key=parsed)`: the first of the least, by Python's tuple order. */
  function Earliest(es: seq<Expiry>): (r: Expiry)
    requires es != []
    ensures r in es
  {
    if |es| == 1 then es[0]
    else
      var best, last := Earliest(es[..|es| - 1]), es[|es| - 1];
      if TupleLess(last.parsed, best.parsed) then last else best
  }

  /** Python's tuple order breaks ties its own way, but what it finds is a least instant. */
  lemma {:induction false} EarliestIsLeast(es: seq<Expiry>)
    requires es != []
    ensures forall i | 0 <= i < |es| :: Compare(Earliest(es).parsed, es[i].parsed) <= 0
  {
    hide Compare;
    var n := |es| - 1;
    var last := es[n].parsed;
    CompareIsPreorder(last, last, last);
    if n == 0 {
    } else {
      EarliestIsLeast(es[..n]);
      var best := Earliest(es[..n]).parsed;
      TupleOrderRefinesCompare(last, best);
      CompareIsPreorder(best, last, last);
      forall i | 0 <= i < n ensures Compare(Earliest(es).parsed, es[i].parsed) <= 0 {
        assert es[i] == es[..n][i];
        CompareIsPreorder(last, best, es[i].parsed);
      }
    }
  }

  /** The part of `_proof_expiry` after the list is filled. */
  function ChooseExpiry(expiries: seq<Expiry>, now: DateTime, ttlSeconds: int): Result<string, string>
    requires expiries != []
  {
    var earliest := Earliest(expiries);
    var end := AddSeconds(now, ttlSeconds);
    if end.None? then Err("INTERNAL_GATEWAY_ERROR") // OverflowError
    else
      var ttlRaw := IsoMillis(end.value);
      MillisNotLater(end.value);
      var ttl := Expiry(Parsed(ttlRaw), ttlRaw);
      var chosen := if Compare(earliest.parsed, ttl.parsed) <= 0 then earliest else ttl;
      if Compare(chosen.parsed, FromDateTime(now)) <= 0 then Err("GATEWAY_ADMISSION_ALREADY_EXPIRED")
      else Ok(chosen.raw)
  }

  /** The list `_proof_expiry` fills, or the first item it stops at. */
  function ExpiryList(ev: seq<Evidence>): (r: Result<seq<Expiry>, string>)
    ensures r.Ok? ==> |r.value| == |ev|
  {
    if ev == [] then Ok([])
    else
      var before := ExpiryList(ev[..|ev| - 1]);
      if before.Err? then before
      else
        var last := ItemExpiry(ev[|ev| - 1]);
        if last.Err? then Err(last.error) else Ok(before.value + [last.value])
  }

  /** What `_proof_expiry` returns. */
  function ProofExpiry(ev: seq<Evidence>, now: DateTime, ttlSeconds: int): Result<string, string> {
    if ev == [] then Err("GATEWAY_EVIDENCE_EXPIRY_REQUIRED")
    else
      var list := ExpiryList(ev);
      if list.Err? then Err(list.error) else ChooseExpiry(list.value, now, ttlSeconds)
  }

  lemma {:induction false} ExpiryListStops(ev: seq<Evidence>, n: nat)
    requires n <= |ev| && ExpiryList(ev[..n]).Err?
    ensures ExpiryList(ev) == Err(ExpiryList(ev[..n]).error)
    decreases |ev| - n
  {
    if n == |ev| {
      assert ev[..n] == ev;
    } else {
      assert ev[..n + 1][..n] == ev[..n];
      ExpiryListStops(ev, n + 1);
    }
  }

  /** `_proof_expiry` */
  method ComputeProofExpiry(ev: seq<Evidence>, now: DateTime, ttlSeconds: int) returns (r: Result<string, string>)
    ensures r == ProofExpiry(ev, now, ttlSeconds)
  {
    hide ChooseExpiry, ItemExpiry;
    if ev == [] {
      return Err("GATEWAY_EVIDENCE_EXPIRY_REQUIRED");
    }
    var expiries: seq<Expiry> := [];
    for i := 0 to |ev|
      invariant ExpiryList(ev[..i]) == Ok(expiries)
    {
      var item := ItemExpiry(ev[i]);
      assert ev[..i + 1][..i] == ev[..i];
      if item.Err? {
        ExpiryListStops(ev, i + 1);
        return Err(item.error);
      }
      expiries := expiries + [item.value];
    }
    assert ev[..|ev|] == ev;
    r := ChooseExpiry(expiries, now, ttlSeconds);
  }

  lemma {:induction false} ExpiryListItems(ev: seq<Evidence>)
    ensures ExpiryList(ev).Ok? <==> forall i | 0 <= i < |ev| :: ItemExpiry(ev[i]).Ok?
    ensures ExpiryList(ev).Ok? ==> forall i | 0 <= i < |ev| :: ItemExpiry(ev[i]) == Ok(ExpiryList(ev).value[i])
  {
    hide ItemExpiry;
    if ev == [] {
    } else {
      var n := |ev| - 1;
      ExpiryListItems(ev[..n]);
      assert forall i | 0 <= i < n :: ev[..n][i] == ev[i];
    }
  }

  /** The end of the time to live, printed to milliseconds, is after `now` and no later than it says. */
  lemma TimeToLive(now: DateTime, ttlSeconds: int)
    requires AddSeconds(now, ttlSeconds).Some?
    ensures var end := AddSeconds(now, ttlSeconds).value; var raw := IsoMillis(end);
            && Parse(raw).Some? && Compare(Parsed(raw), FromDateTime(end)) <= 0
            && (ttlSeconds >= 1 ==> Compare(Parsed(raw), FromDateTime(now)) > 0)
  {
    hide Parse, IsoMillis, FromDateTime, CompareFractions, PosixOf, AddSeconds;
    var end := AddSeconds(now, ttlSeconds).value;
    MillisNotLater(end);
    if ttlSeconds >= 1 {
      FromDateTimeLaterSecond(now, end);
    }
  }

  /** A granted expiry is a real instant after `now`, at most the time to live and every evidence expiry. */
  lemma GrantedExpiry(ev: seq<Evidence>, now: DateTime, ttlSeconds: int)
    requires ProofExpiry(ev, now, ttlSeconds).Ok?
    ensures var raw := ProofExpiry(ev, now, ttlSeconds).value;
            && Parse(raw).Some?
            && Compare(FromDateTime(now), Parsed(raw)) < 0
            && AddSeconds(now, ttlSeconds).Some?
            && Compare(Parsed(raw), FromDateTime(AddSeconds(now, ttlSeconds).value)) <= 0
            && (forall i | 0 <= i < |ev| ::
                  ItemExpiry(ev[i]).Ok? && Compare(Parsed(raw), ItemExpiry(ev[i]).value.parsed) <= 0)
  {
    hide Parse, Compare, IsoMillis, FromDateTime, AddSeconds, ItemExpiry;
    ExpiryListItems(ev);
    var list := ExpiryList(ev).value;
    var raw := ProofExpiry(ev, now, ttlSeconds).value;
    var end := AddSeconds(now, ttlSeconds).value;
    var earliest := Earliest(list);
    EarliestIsLeast(list);
    TimeToLive(now, ttlSeconds);
    ListRaw(ev);
    assert Parse(raw).Some?;
    CompareIsPreorder(FromDateTime(now), Parsed(raw), earliest.parsed);
    CompareIsPreorder(earliest.parsed, Parsed(IsoMillis(end)), FromDateTime(end));
    forall i | 0 <= i < |ev| ensures Compare(Parsed(raw), list[i].parsed) <= 0 {
      CompareIsPreorder(Parsed(raw), earliest.parsed, list[i].parsed);
      CompareIsPreorder(earliest.parsed, Parsed(IsoMillis(end)), earliest.parsed);
    }
  }

  lemma ListRaw(ev: seq<Evidence>)
    requires ExpiryList(ev).Ok?
    ensures forall x | x in ExpiryList(ev).value :: Parse(x.raw).Some? && Parsed(x.raw) == x.parsed
  {
  }

  /** The item has an expiry that can be read, and it is after `now`. */
  predicate ExpiresAfter(e: Evidence, now: Stamp) {
    e.expiresAt.Some? && Parse(e.expiresAt.value).Some? && Compare(Parsed(e.expiresAt.value), now) > 0
  }

  /** An expiry is granted exactly for evidence that all expires later, when the time to live ends on a datetime that is
      still later when printed. A time to live of a second or more always is. */
  lemma RefusedIffExpired(ev: seq<Evidence>, now: DateTime, ttlSeconds: int)
    ensures ProofExpiry(ev, now, ttlSeconds).Ok? <==>
            && ev != [] && (forall i | 0 <= i < |ev| :: ExpiresAfter(ev[i], FromDateTime(now)))
            && AddSeconds(now, ttlSeconds).Some? && PrintedAfter(AddSeconds(now, ttlSeconds).value, now)
    ensures ttlSeconds >= 1 && AddSeconds(now, ttlSeconds).Some? ==>
            PrintedAfter(AddSeconds(now, ttlSeconds).value, now)
  {
    hide Parse, Compare, FromDateTime, AddSeconds, ChooseExpiry, PrintedAfter;
    EndIsLater(now, ttlSeconds);
    ExpiryListItems(ev);
    forall i | 0 <= i < |ev|
      ensures ItemExpiry(ev[i]).Ok? <==> ev[i].expiresAt.Some? && Parse(ev[i].expiresAt.value).Some?
    {
      ReadableExpiry(ev[i]);
    }
    if ev != [] && ExpiryList(ev).Ok? {
      var list := ExpiryList(ev).value;
      ChoiceRefused(list, now, ttlSeconds);
      forall i | 0 <= i < |ev|
        ensures ExpiresAfter(ev[i], FromDateTime(now)) <==> Compare(list[i].parsed, FromDateTime(now)) > 0
      {
        assert ItemExpiry(ev[i]) == Ok(list[i]);
      }
    }
  }

  /** The printed form of `end` is after `now`. */
  predicate PrintedAfter(end: DateTime, now: DateTime) {
    Parse(IsoMillis(end)).Some? && Compare(Parsed(IsoMillis(end)), FromDateTime(now)) > 0
  }

  lemma EndIsLater(now: DateTime, ttlSeconds: int)
    ensures ttlSeconds >= 1 && AddSeconds(now, ttlSeconds).Some? ==>
            PrintedAfter(AddSeconds(now, ttlSeconds).value, now)
  {
    hide Parse, Compare, FromDateTime, AddSeconds, IsoMillis;
    if AddSeconds(now, ttlSeconds).Some? { TimeToLive(now, ttlSeconds); }
  }

  lemma ReadableExpiry(e: Evidence)
    ensures ItemExpiry(e).Ok? <==> e.expiresAt.Some? && Parse(e.expiresAt.value).Some?
    ensures ItemExpiry(e).Ok? ==> ItemExpiry(e).value == Expiry(Parsed(e.expiresAt.value), e.expiresAt.value)
  {
    hide Resolve;
  }

  /** With a list of expiries in hand, it is refused exactly when one has passed or the time to live ends too early. */
  lemma ChoiceRefused(list: seq<Expiry>, now: DateTime, ttlSeconds: int)
    requires list != []
    ensures ChooseExpiry(list, now, ttlSeconds).Ok? <==>
            && (forall i | 0 <= i < |list| :: Compare(list[i].parsed, FromDateTime(now)) > 0)
            && AddSeconds(now, ttlSeconds).Some? && PrintedAfter(AddSeconds(now, ttlSeconds).value, now)
  {
    hide Parse, Compare, IsoMillis, FromDateTime, AddSeconds;
    if AddSeconds(now, ttlSeconds).Some? {
      var earliest, t := Earliest(list), FromDateTime(now);
      EarliestIsLeast(list);
      MillisNotLater(AddSeconds(now, ttlSeconds).value);
      var end := Parsed(IsoMillis(AddSeconds(now, ttlSeconds).value));
      var k :| 0 <= k < |list| && list[k] == earliest;
      CompareIsPreorder(t, end, t);
      CompareIsPreorder(t, earliest.parsed, t);
      CompareIsPreorder(t, end, earliest.parsed);
      CompareIsPreorder(end, earliest.parsed, end);
      CompareIsPreorder(t, earliest.parsed, end);
      forall i | 0 <= i < |list| ensures Compare(earliest.parsed, t) > 0 ==> Compare(list[i].parsed, t) > 0 {
        CompareIsPreorder(t, earliest.parsed, list[i].parsed);
        CompareIsPreorder(t, list[i].parsed, t);
      }
    }
  }

  /** A granted expiry is the least of the evidence expiries and the printed end of the time to live, and is one of
      them. */
  lemma GrantedIsLeast(ev: seq<Evidence>, now: DateTime, ttlSeconds: int)
    requires ProofExpiry(ev, now, ttlSeconds).Ok?
    ensures var raw := ProofExpiry(ev, now, ttlSeconds).value;
            && Parse(raw).Some? && AddSeconds(now, ttlSeconds).Some?
            && Parse(IsoMillis(AddSeconds(now, ttlSeconds).value)).Some?
            && Compare(Parsed(raw), Parsed(IsoMillis(AddSeconds(now, ttlSeconds).value))) <= 0
            && (forall i | 0 <= i < |ev| ::
                  && ev[i].expiresAt.Some? && Parse(ev[i].expiresAt.value).Some?
                  && Compare(Parsed(raw), Parsed(ev[i].expiresAt.value)) <= 0)
            && (raw == IsoMillis(AddSeconds(now, ttlSeconds).value)
                || exists i :: 0 <= i < |ev| && ev[i].expiresAt == Some(raw))
  {
    hide Parse, Compare, IsoMillis, FromDateTime, AddSeconds, ItemExpiry;
    GrantedExpiry(ev, now, ttlSeconds);
    ExpiryListItems(ev);
    ListRaw(ev);
    var list, raw := ExpiryList(ev).value, ProofExpiry(ev, now, ttlSeconds).value;
    var earliest := Earliest(list);
    var ttlRaw := IsoMillis(AddSeconds(now, ttlSeconds).value);
    MillisNotLater(AddSeconds(now, ttlSeconds).value);
    CompareIsPreorder(Parsed(ttlRaw), Parsed(ttlRaw), Parsed(ttlRaw));
    var k :| 0 <= k < |list| && list[k] == earliest;
    forall i | 0 <= i < |ev|
      ensures ev[i].expiresAt.Some? && Parse(ev[i].expiresAt.value).Some?
      ensures ItemExpiry(ev[i]).value == Expiry(Parsed(ev[i].expiresAt.value), ev[i].expiresAt.value)
    {
      ReadableExpiry(ev[i]);
    }
  }

  /** A PRE proof admitted with this expiry still verifies at every instant before it. */
  lemma AdmittedProofStillVerifies(h: Hash, p: Proof, t0: Stamp, now: DateTime, ttlSeconds: int, t: Stamp)
    requires p.phase == "PRE" && p.decision == VERIFIED && ValidAt(h, p, t0)
    requires ProofExpiry(p.evidence, now, ttlSeconds).Ok?
    requires Parse(ProofExpiry(p.evidence, now, ttlSeconds).value).Some?
    requires Compare(t, Parsed(ProofExpiry(p.evidence, now, ttlSeconds).value)) < 0
    ensures ValidAt(h, p, t)
  {
    hide Parse, Compare, FromDateTime, ValidAt, ProofExpiry;
    var raw := ProofExpiry(p.evidence, now, ttlSeconds).value;
    GrantedExpiry(p.evidence, now, ttlSeconds);
    VerifiedWindow(h, p, t0, t);
    assert AllEvidence(p) == p.evidence;
    forall i | 0 <= i < |p.evidence| && p.evidence[i].expiresAt.Some?
      ensures Parse(p.evidence[i].expiresAt.value).Some?
      ensures Compare(t, Parsed(p.evidence[i].expiresAt.value)) < 0
    {
      CompareIsPreorder(t, Parsed(raw), Parsed(p.evidence[i].expiresAt.value));
    }
  }

  // ----- the admission record -----

  datatype AdmissionRecord = AdmissionRecord(operationId: string, proofDigest: string, subjectDigest: string,
                                             targetDigest: string, issuedAt: string, expiresAt: string)

  /** `_admission_record`, with the checks the record itself makes. */
  function Admit(p: Proof, now: DateTime, ttlSeconds: int): Result<AdmissionRecord, string> {
    if p.schema != PROOF_V2 then Err("GATEWAY_REQUIRES_PROOF_V2")
    else if p.phase != "PRE" then Err("GATEWAY_REQUIRES_PRE_PROOF")
    else if p.operationId == "" then Err("INVALID_GATEWAY_OPERATION_ID")
    else if !ValidOptionalDigest(p.proofDigest) then Err("INVALID_GATEWAY_PROOF_DIGEST")
    else if !ValidOptionalDigest(p.subjectDigest) then Err("INVALID_GATEWAY_SUBJECT_DIGEST")
    else if p.subject.None? then Err("INVALID_GATEWAY_SUBJECT")
    else if !ValidDigest(p.subject.value.targetDigest) then Err("INVALID_GATEWAY_TARGET_DIGEST")
    else
      var expiry := ProofExpiry(p.evidence, now, ttlSeconds);
      if expiry.Err? then Err(expiry.error)
      else if !CanonicalText(p.operationId) then Err("INVALID_ADMISSION_OPERATION_ID")
      else Ok(AdmissionRecord(p.operationId, p.proofDigest.value, p.subjectDigest.value, p.subject.value.targetDigest,
                              IsoMillis(now), expiry.value))
  }

  /** What is admitted, exactly, and what the record of it says. */
  lemma AdmitMeans(p: Proof, now: DateTime, ttlSeconds: int)
    ensures Admit(p, now, ttlSeconds).Ok? <==>
            && p.schema == PROOF_V2 && p.phase == "PRE" && CanonicalText(p.operationId)
            && p.proofDigest.Some? && ValidDigest(p.proofDigest.value)
            && p.subjectDigest.Some? && ValidDigest(p.subjectDigest.value)
            && p.subject.Some? && ValidDigest(p.subject.value.targetDigest)
            && ProofExpiry(p.evidence, now, ttlSeconds).Ok?
    ensures Admit(p, now, ttlSeconds).Ok? ==>
              var r := Admit(p, now, ttlSeconds).value;
              && r.operationId == p.operationId && r.proofDigest == p.proofDigest.value
              && r.subjectDigest == p.subjectDigest.value && r.targetDigest == p.subject.value.targetDigest
              && r.issuedAt == IsoMillis(now) && Ok(r.expiresAt) == ProofExpiry(p.evidence, now, ttlSeconds)
  {
    hide ProofExpiry, ValidDigest, IsoMillis;
  }

  /** `_record_is_expired` */
  predicate RecordIsExpired(r: AdmissionRecord, now: Stamp) {
    Parse(r.expiresAt).None? || Compare(Parsed(r.expiresAt), now) <= 0
  }

  /** As long as a record is not expired, the proof it was admitted for verifies. */
  lemma FreshRecordMeansValidProof(h: Hash, p: Proof, t0: Stamp, now: DateTime, ttlSeconds: int, t: Stamp)
    requires p.decision == VERIFIED && ValidAt(h, p, t0)
    requires Admit(p, now, ttlSeconds).Ok? && !RecordIsExpired(Admit(p, now, ttlSeconds).value, t)
    ensures ValidAt(h, p, t)
  {
    hide ValidAt, ProofExpiry, Compare, Parse;
    var r := Admit(p, now, ttlSeconds).value;
    CompareIsPreorder(t, Parsed(r.expiresAt), t);
    AdmittedProofStillVerifies(h, p, t0, now, ttlSeconds, t);
  }
}
