/** What the reason codes of a chain verification tell. */
module ChainCodes {
  import opened PyString
  import opened TimestampOrder
  import opened Attestations

  /** The codes about places and links, and those about what the caller expects; none is about one entry alone. */
  const CHAIN_CODES: set<string> := {
    "REPLAYED_ATTESTATION_ID", "REPLAYED_ATTESTATION_DIGEST", "PROVENANCE_SEQUENCE_MISMATCH", "BROKEN_PREDECESSOR_LINK",
    "CROSS_OPERATION_TRANSPLANT", "SUBJECT_TRANSPLANT", "PROOF_TRANSPLANT"
  }

  lemma NotOfEntry(h: AttestationHash, s: Signed, i: nat, verifiers: Verifiers, now: Stamp, c: string)
    requires c in CHAIN_CODES
    ensures c !in EntryReasons(h, s, i, verifiers, now)
  {
    hide SignatureReasons, IntegrityReasons, Decimal;
    assert c[0] != 'E' && c[0] != 'U';
  }

  lemma NotExpected(first: Attestation, e: Expected, c: string)
    requires c in CHAIN_CODES
    ensures c !in ExpectedReasons(first, e)
  {
    assert c[0] != 'E';
  }

  lemma {:induction false} LinkCodes(h: AttestationHash, chain: seq<Signed>, n: nat, verifiers: Verifiers, now: Stamp,
                                     c: string)
    requires n <= |chain| && c in CHAIN_CODES
    ensures c in ReasonsUpTo(h, chain, n, verifiers, now) <==> exists i :: 0 <= i < n && c in LinkReasons(chain, i)
  {
    hide EntryReasons, LinkReasons, CHAIN_CODES;
    if n == 0 {
    } else {
      LinkCodes(h, chain, n - 1, verifiers, now, c);
      NotOfEntry(h, chain[n - 1], n - 1, verifiers, now, c);
    }
  }

  /** What one place gets each code for. */
  predicate Told(chain: seq<Signed>, i: nat, c: string)
    requires i < |chain|
  {
    var a, first := chain[i].attestation, chain[0].attestation;
    if c == "REPLAYED_ATTESTATION_ID" then
      exists j :: 0 <= j < i && chain[j].attestation.attestationId == a.attestationId
    else if c == "REPLAYED_ATTESTATION_DIGEST" then
      exists j :: 0 <= j < i && chain[j].attestation.attestationDigest == a.attestationDigest
    else if c == "PROVENANCE_SEQUENCE_MISMATCH" then a.sequence != i
    else if c == "BROKEN_PREDECESSOR_LINK" then a.previous != PreviousDigest(chain, i)
    else if c == "CROSS_OPERATION_TRANSPLANT" then a.operationId != first.operationId
    else if c == "SUBJECT_TRANSPLANT" then a.subjectDigest != first.subjectDigest
    else c == "PROOF_TRANSPLANT" && a.proofDigest != first.proofDigest
  }

  lemma PlaceTold(chain: seq<Signed>, i: nat, c: string)
    requires i < |chain| && c in CHAIN_CODES
    ensures c in LinkReasons(chain, i) <==> Told(chain, i, c)
  {
  }

  /** A chain gets each of these codes exactly when some place in it is replayed, out of sequence, unlinked, or about
      another operation, subject or proof. */
  lemma ChainTells(h: AttestationHash, chain: seq<Signed>, verifiers: Verifiers, e: Expected, now: Stamp, c: string)
    requires chain != [] && c in CHAIN_CODES
    ensures c in ChainReasons(h, chain, verifiers, e, now) <==> exists i :: 0 <= i < |chain| && Told(chain, i, c)
  {
    hide ReasonsUpTo, ExpectedReasons, LinkReasons, Told, CHAIN_CODES;
    LinkCodes(h, chain, |chain|, verifiers, now, c);
    NotExpected(chain[0].attestation, e, c);
    forall i | 0 <= i < |chain| ensures c in LinkReasons(chain, i) <==> Told(chain, i, c) {
      PlaceTold(chain, i, c);
    }
  }
}
