# OperationProof: a verified model

OperationProof decides whether an operation may run from signed evidence, and keeps a hash-linked record of what it
decided. This project models its four connected parts and proves what they promise together:

- **exact time**: timestamps of RFC 3339 with leap seconds and unbounded fractions, compared without rounding;
- **proofs**: evaluation of evidence sets, building and recursive verification of PRE and FINAL proofs, the provider
  trust gate with its verification stage, subject binding, and the acceptance gate;
- **provenance**: signed attestations, the append-only store, the recorder, and the independent chain verifier;
- **the gateway**: the one-time admission store, the expiry of an admission, and the admission and proxy handlers, with
  and without provenance around them, as steps of many interleaved requests.

The results build on each other. Exact time makes the validity of a proof an interval of instants
(`Validity.VerifiedWindow`); the expiry chosen at admission lies inside that interval
(`GatewayExpiry.AdmittedProofStillVerifies`); so in every interleaving of requests, each dispatch happens at most once
per operation and per proof, to the admitted target, and the admitted proof still verifies at the dispatch's last clock
reading (`GatewaySafety.DispatchedAtMostOnce`, `GatewaySafety.DispatchIsCovered`). Nothing is safe by doing nothing: from
every state, a request is dispatched exactly when its token, target, times and events are good
(`GatewayProgress.ProxyDispatches`), and an admitted request does get through
(`GatewayProgress.AdmittedRequestIsDispatched`). In the provenance part, the store grants
exactly the appends that keep a verifiable history (`AttestationStore.AppendGranted`), so after any interleaving of
recorders, and after any run of the gateway, every chain in it is valid for the chain verifier
(`Provenance.EveryRunLeavesValidChains`, `GatewayLog.GatewayChainsAreValid`), and the gateway's events in it follow a
lifecycle (`AttestedGateway.EventsAreALifecycle`).

## How to read it

Reason codes are sets of strings; where the program returns `sorted(set(...))` the model returns `SortedUnique`, which
is proved sorted, to hold the same elements, and to determine the set. Documents are datatypes. Operations that change
state are classes with methods (the attestation store, the admission stores, the trust registry, the context variable),
each tied to a specification function over values; loops are methods with invariants; concurrent behaviour is a fold of
atomic steps over those same specification functions.

Digest functions are arbitrary functions given as parameters. None is assumed injective: that would be false of any
function from documents to 71-character digests, and would make the theorems empty. Commitment results instead read
"the same, or here are two different payloads with one digest". Signers, signature verifiers, provider verifiers and
binding resolvers are arbitrary functions that may also fail. Clock readings, fresh identifiers, token draws and the
digests of telemetry events are parameters. One verification uses one instant, where the program reads the clock in each
semantic evaluation.

The lifecycle results of the gateway with provenance installed assume that a client presents only tokens it was given,
that closing the upstream response does not itself fail, and that other users of the provenance store file no entry of a
lifecycle event type. `GatewayLog.GatewayChainsAreValid` assumes that what is handed to the provenance store has passed
the recorder's own checks, as `Provenance.PreparedDraft` proves of every recorder. The safety results of the
gateway without provenance need none of this.

| file | content |
|---|---|
| `PyString.dfy` | Python string order, sorted reason codes, canonical text, digests |
| `TimestampOrder.dfy`, `Calendar.dfy`, `LeapTimeline.dfy`, `Rfc3339.dfy` | exact time |
| `Evidence.dfy`, `EvidenceCodes.dfy`, `Verifier.dfy`, `ProofCodes.dfy`, `Builder.dfy`, `Validity.dfy` | evidence sets and proofs |
| `TrustStage.dfy`, `Trust.dfy`, `SubjectBinding.dfy`, `Sdk.dfy` | trust, binding and acceptance |
| `Attestation.dfy`, `ChainCodes.dfy`, `AttestationStore.dfy`, `Provenance.dfy` | provenance |
| `GatewayExpiry.dfy`, `GatewayStore.dfy`, `Gateway.dfy`, `GatewaySafety.dfy`, `GatewayProgress.dfy` | the gateway |
| `AttestedStore.dfy`, `AttestedGateway.dfy`, `GatewayLog.dfy` | the gateway with provenance |

## Model

| member | source | states |
|---|---|---|
| `PyString.SortedUniqueIsSorted` | src/operationproof/verifier.py:182-183 | reason codes come out strictly increasing in code-point order, hence without repeats |
| `PyString.SortedUniqueElements` | src/operationproof/verifier.py:182-183 | nothing is lost or added by sorting |
| `PyString.SortedUniqueInjective` | src/operationproof/verifier.py:272-285 | equal recorded codes mean equal sets of reasons, so the record check compares reasons |
| `PyString.CanonicalMeans` | src/operationproof/attestation.py:106-115 | canonical text is non-empty, left alone by stripping, and free of the null character |
| `PyString.DigestMeans` | src/operationproof/canonical.py:25-26 | a digest is its prefix and sixty-four lower-case hexadecimal digits |
| `TimestampOrder.CompareIsSign` | src/operationproof/rfc3339.py:138-158 | comparison is the sign of the exact rational difference, for digit strings of any length |
| `TimestampOrder.CompareIsPreorder` | src/operationproof/rfc3339.py:138-158 | comparison is a total preorder |
| `TimestampOrder.TiesAreTrailingZeroVariants` | src/operationproof/rfc3339.py:138-158 | two timestamps tie exactly when they differ in trailing zeros only |
| `TimestampOrder.TupleOrderRefinesCompare` | src/operationproof/gateway.py:231 | Python's tuple order, used by `min`, agrees with the exact comparison and only breaks its ties |
| `Calendar.OrdinalInjective` | src/operationproof/rfc3339.py:50-52 | valid dates and day numbers are in bijection |
| `Calendar.OrdinalFormula` | src/operationproof/rfc3339.py:50-52 | the day number in closed form, month lengths and leap years included |
| `Calendar.EpochDay` | src/operationproof/rfc3339.py:50-52 | posix time starts on 1970-01-01 |
| `LeapTimeline.BoundariesIncrease` | src/operationproof/rfc3339.py:17-58 | boundaries of dates in order increase, neighbours more than a second apart, as the bisections need |
| `LeapTimeline.KnownBoundaries` | src/operationproof/rfc3339.py:17-58 | the table has twenty-seven boundaries, the first and last at their known posix seconds |
| `LeapTimeline.LineKeepsOrder` | src/operationproof/rfc3339.py:105-118 | the timeline keeps UTC order in both directions, leap seconds included, and is one to one |
| `LeapTimeline.LeapSecondIsInserted` | src/operationproof/rfc3339.py:107-116 | each leap second has its own integer, between those of its two neighbours |
| `LeapTimeline.LineReachesEveryInteger` | src/operationproof/rfc3339.py:55-58 | no integer is left over: with the previous rows, a bijection |
| `Rfc3339.LexRender` | src/operationproof/rfc3339.py:8-12 | the pattern reads back the fields of every rendering |
| `Rfc3339.RenderLex` | src/operationproof/rfc3339.py:8-12 | the pattern accepts nothing but renderings of its fields |
| `Rfc3339.ParseSound` | src/operationproof/rfc3339.py:61-121 | a rendering that names a second of UTC parses to its place on the timeline with its fraction |
| `Rfc3339.ParseComplete` | src/operationproof/rfc3339.py:61-121 | whatever parses is a rendering that names a second of UTC, a listed leap second included |
| `Rfc3339.ParseDependsOnInstant` | src/operationproof/rfc3339.py:61-158 | the offset and letter case do not matter: one UTC second compares by fraction alone, an earlier one is less |
| `Rfc3339.OffsetMoves` | src/operationproof/rfc3339.py:61-105 | a wall clock ahead of UTC names an earlier instant by its offset, one behind a later one |
| `Rfc3339.UnknownOffsetRefused` | src/operationproof/rfc3339.py:61-121 | the unknown local offset -00:00 is refused |
| `Rfc3339.PosixFields` | src/operationproof/rfc3339.py:50-52 | posix time counts the days from 1970-01-01 and the seconds of the day |
| `Rfc3339.MicrosRoundTrip` | src/operationproof/rfc3339.py:124-135 | a datetime printed to microseconds parses to an equal timestamp |
| `Rfc3339.MillisNotLater` | src/operationproof/gateway.py:232-233 | a datetime printed to milliseconds parses to the same second and no later |
| `Rfc3339.FromDateTimeKeepsOrder` | src/operationproof/rfc3339.py:124-135 | clock readings compare as the instants they are |
| `Evidences.EvaluateEvidenceSet` | src/operationproof/verifier.py:127-183 | the loop over `reasons` and `seen` finds exactly the set of reasons and returns it sorted |
| `Evidences.SetClean` | src/operationproof/verifier.py:62-183 | a set verifies exactly when every item is well-formed, unexpired, passing and in place, no layer repeats, and each required layer is there |
| `EvidenceCodes.VerdictCodes` | src/operationproof/verifier.py:127-183 | a layer is called failed exactly for an item with verdict FAIL, unknown exactly for one that is neither FAIL nor PASS |
| `EvidenceCodes.LayerCodes` | src/operationproof/verifier.py:127-183 | a layer is called missing exactly when required and unnamed, duplicate exactly when two items name it |
| `EvidenceCodes.PlaceCodes` | src/operationproof/verifier.py:107-183 | an item is called expired, foreign, about another subject, or forbidden exactly when it is |
| `Evidences.PermutationInvariance` | src/operationproof/builder.py:40-52 | reordering evidence that has layers changes no reason |
| `Evidences.ReasonsGrow` | src/operationproof/verifier.py:107-119 | as time passes, reasons are only added |
| `Evidences.CleanUntilExpiry` | src/operationproof/verifier.py:107-119 | a clean set stays clean exactly while nothing in it has expired |
| `Verifier.CheckDocument` | src/operationproof/verifier.py:316-373 | the accumulation loop finds exactly the document's own reasons |
| `Verifier.VerifyProof` | src/operationproof/verifier.py:316-405 | the recursive verifier returns validity and sorted reasons, those of the embedded proof prefixed |
| `Verifier.DocumentClean` | src/operationproof/verifier.py:288-373 | the document checks pass exactly for a sound document: version, digest, fields, subject binding, embedding |
| `Verifier.EmbeddedClean` | src/operationproof/verifier.py:202-250 | a FINAL proof may stand on its PRE proof exactly when that one is there, valid, VERIFIED, of its operation and subject, and the one named |
| `Verifier.DigestCommits` | src/operationproof/verifier.py:323-329 | two sound documents with one proof digest are equal, or their payloads collide |
| `Verifier.ValidMeans` | src/operationproof/verifier.py:316-405 | a proof is valid exactly when its document is sound, its embedded proof valid, and its record equals the semantics |
| `ProofCodes.RecordCodes` | src/operationproof/verifier.py:272-285 | a proof is called mismatched in its decision or its reasons exactly when that field differs from what the semantics gives |
| `ProofCodes.EmbeddedFailureCodes` | src/operationproof/verifier.py:366-373 | a FINAL proof is told its PRE proof fails exactly when it does, and every code of that failure |
| `Builder.SortPermutes` | src/operationproof/builder.py:40-52 | the evidence sort is a permutation |
| `Builder.SortSorts` | src/operationproof/builder.py:40-52 | the evidence sort orders by layer |
| `Builder.SortIsStable` | src/operationproof/builder.py:40-52 | items of one layer keep their order |
| `Builder.BuiltPreVerifies` | src/operationproof/builder.py:18-53 | a built PRE proof verifies at that instant, for any evidence, exactly when it names an operation |
| `Builder.BuiltPreMeans` | src/operationproof/builder.py:18-53 | a built PRE proof holds exactly the evidence given, sorted, under the operation and subject given, and is VERIFIED exactly for one passing envelope per layer |
| `Builder.BuiltFinalVerifies` | src/operationproof/builder.py:56-90 | a built FINAL proof verifies exactly when the PRE proof it embeds does |
| `Builder.BuiltFinalMeans` | src/operationproof/builder.py:56-90 | a built FINAL proof holds the execution envelope, embeds the PRE proof, and is VERIFIED exactly when that one is valid, VERIFIED and PRE and the envelope passes |
| `Validity.ValidityIsConvex` | src/operationproof/verifier.py:272-285 | the instants at which any fixed proof verifies have no gaps |
| `Validity.VerifiedMeans` | src/operationproof/verifier.py:202-250 | a valid VERIFIED proof has a clean evidence set, and a FINAL one a valid VERIFIED PRE proof of its operation and digest |
| `Validity.VerifiedExactly` | src/operationproof/verifier.py:202-405 | verified, exactly: a sound document without reasons, clean evidence by its phase's rules, and for FINAL a verified PRE proof of its operation, digest and subject |
| `Validity.VerifiedWindow` | src/operationproof/verifier.py:107-119 | a VERIFIED proof valid at one instant is valid exactly at those strictly before every expiry in it, embedded ones included |
| `TrustStage.ContextVariable.Invoke` | src/operationproof/trust.py:124-132 | for any verifier that goes on by what it sees and by how nested ones end, every look finds the innermost stage, the previous marker is restored, and retained markers read as DIRECT |
| `TrustStage.InnermostStage` | src/operationproof/trust.py:27-33 | cutting out every nested verification changes no outcome at any stage |
| `Trust.ProviderTrustRegistry.Register` | src/operationproof/trust.py:81-97 | succeeds exactly for a known layer, a named provider and a free entry; never replaces one |
| `Trust.ProviderTrustRegistry.VerifyEvidenceTrust` | src/operationproof/trust.py:103-136 | one item is judged by how its registered verifier ends at that stage, and the context variable is left as it was |
| `Trust.ProviderTrustRegistry.VerifyProofTrust` | src/operationproof/trust.py:139-205 | the recursive loop runs every verifier under the context variable, finds exactly the trust reasons, and every look in it finds the stage of its own invocation |
| `Trust.TrustedMeans` | src/operationproof/trust.py:103-205 | trust holds exactly when the proof is valid and VERIFIED, each item is accepted by its registered verifier in a context with its phase, operation, digests and index, and an embedded proof is trusted at its stage |
| `SubjectBinding.UnbindBind` | src/operationproof/subject_binding.py:125-185 | unbinding rebuilds exactly the document that was bound |
| `SubjectBinding.BindIsBindDocument` | src/operationproof/subject_binding.py:125-185 | binding a typed envelope succeeds exactly when its operation is the subject's and its document can be bound, and is that document |
| `SubjectBinding.BindGranted` | src/operationproof/subject_binding.py:70-185 | binding succeeds exactly for a binding that names the envelope's operation, layer, provider and digests and the canonical subject, dated, in its window and authenticated; only subject and marker change |
| `SubjectBinding.BindingUsable` | src/operationproof/subject_binding.py:70-122 | validation passes exactly for a binding that correlates this document with this subject, is dated soundly and in its window |
| `SubjectBinding.UsableInWindow` | src/operationproof/subject_binding.py:103-122 | a binding once usable is usable exactly from its issue to just before its expiry |
| `SubjectBinding.BoundEnvelopeAcceptance` | src/operationproof/subject_binding.py:188-273 | the wrapper accepts a bound envelope exactly when the native verifier accepts the native one and the binding is in its window |
| `SubjectBinding.AcceptedIsBound` | src/operationproof/subject_binding.py:188-273 | whatever document is accepted is what binding yields from an accepted native document and an authenticated, in-window binding that names both subjects, the operation, layer and provider |
| `SubjectBinding.AcceptedEnvelopeIsBound` | src/operationproof/subject_binding.py:125-185 | an accepted document that is a typed envelope about a given subject is what `bind_evidence_to_subject` itself returns |
| `SubjectBinding.AcceptedExactly` | src/operationproof/subject_binding.py:188-273 | the wrapper accepts exactly the documents that binding yields from an accepted native document by a resolvable binding |
| `SubjectBinding.OneBindingOneEnvelope` | src/operationproof/subject_binding.py:216-269 | two accepted documents naming one binding are equal, or their native envelopes collide |
| `SubjectBinding.BindingDigestCommits` | src/operationproof/subject_binding.py:60-62 | two bindings with one digest are equal or collide |
| `Sdk.ValidateDocumentDepth` | src/operationproof/sdk.py:34-49 | the explicit-stack walk ends and rejects exactly the documents with a node below more than 64 containers |
| `Sdk.AssessProof` | src/operationproof/sdk.py:158-250 | the snapshot, the shape, the verifier and the trust gate composed give the assessment, codes included |
| `Sdk.AcceptedFinal` | src/operationproof/sdk.py:183-250 | an accepted FINAL proof has eight passing, unexpired items of one operation and subject, one per layer, each accepted at its stage in a context with the digests of its own proof |
| `Sdk.AcceptedPre` | src/operationproof/sdk.py:183-250 | an accepted PRE proof has seven passing, unexpired items of one operation and subject, one per layer, each accepted by its verifier |
| `Sdk.AcceptanceIsFailClosed` | src/operationproof/sdk.py:183-250 | acceptance, exactly: a document within the depth bound and with a canonical form, under a registry that trusts it |
| `Sdk.AssessmentTells` | src/operationproof/sdk.py:144-250 | every other field of the assessment: validity, trust and all three lists of codes, for refused and assessed documents |
| `Sdk.FinalSubjects` | src/operationproof/verifier.py:149-183 | a v2 FINAL proof and its PRE proof are bound to one subject |
| `Attestations.IntegrityMeans` | src/operationproof/attestation.py:175-259 | integrity passes exactly for an attestation with sound content, position and digest that is not from the future |
| `Attestations.SignatureMeans` | src/operationproof/attestation.py:310-406 | a signature passes exactly when the attestation is intact, not issued after the latest time allowed, and the signature names it and is accepted |
| `Attestations.SkewMeans` | src/operationproof/attestation.py:175-406 | with a future skew, a signature passes exactly for a skew of 0 to 300 seconds and an attestation issued no later than the reading plus it |
| `Attestations.SkewWidens` | src/operationproof/attestation.py:220-240 | a larger allowed skew accepts whatever a smaller one does |
| `Attestations.SignGranted` | src/operationproof/attestation.py:275-307 | signing succeeds exactly for an intact attestation of the signer's issuer, a canonical identity and a signature text, and signs that attestation under that identity |
| `Attestations.SignedVerifies` | src/operationproof/attestation.py:275-307 | what signing returns verifies under the signer's identity, once issued and if the external verifier accepts it |
| `Attestations.TrustLasts` | src/operationproof/attestation.py:310-406 | an entry trusted once is trusted at every later instant |
| `Attestations.VerifyProvenanceChain` | src/operationproof/attestation.py:409-512 | the chain loop is valid exactly for chains that are trusted, linked, replay-free and as expected; it reports all reasons, sorted, with anchor, length and head |
| `Attestations.ChainClean` | src/operationproof/attestation.py:431-512 | the loop's accumulated reasons are empty exactly for the loop-free notion of a valid chain |
| `ChainCodes.ChainTells` | src/operationproof/attestation.py:455-490 | each chain code is given exactly when some place is replayed, out of sequence, unlinked, or about another operation, subject or proof |
| `Attestations.HashLinksCommit` | src/operationproof/attestation.py:459-476 | equal digests at two places of hash-linked chains mean equal histories up to them, or a collision |
| `Attestations.HeadCommitsToHistory` | src/operationproof/attestation.py:129-132 | two valid chains with one head digest hold the same attestations in the same order and number, or a collision |
| `AttestationStore.AppendGranted` | src/operationproof/attestation_store.py:134-207 | append succeeds exactly for an intact, fresh entry that links to the operation's records at the expected position, while there is room |
| `AttestationStore.AppendRefused` | src/operationproof/attestation_store.py:134-193 | the reason of a refusal, in the order of the checks, in terms of the records held |
| `AttestationStore.AppendKeepsInv` | src/operationproof/attestation_store.py:173-207 | an append keeps the invariant over heads, records and the seen sets, and extends the records |
| `AttestationStore.PositionGrantedOnce` | src/operationproof/attestation_store.py:173-190 | after one append at a position, no other append at it succeeds: of all ever tried there, at most one |
| `AttestationStore.ReadBackHolds` | src/operationproof/attestation_store.py:209-218 | what was appended is read back at its position, whatever was appended since |
| `AttestationStore.MemoryAttestationStore.GetHead` | src/operationproof/attestation_store.py:128-132 | the head is that of the operation's last record, None without records; the empty identifier is refused |
| `AttestationStore.MemoryAttestationStore.CountRecords` | src/operationproof/attestation_store.py:173-175 | adding up the operations in any order counts all records |
| `AttestationStore.MemoryAttestationStore.AppendSigned` | src/operationproof/attestation_store.py:134-207 | compare-and-append in place: the new state and head, or the reason and no change |
| `AttestationStore.MemoryAttestationStore.Read` | src/operationproof/attestation_store.py:209-218 | returns the record at a position, if held; refuses the empty identifier and negative positions |
| `Provenance.PreparedDraft` | src/operationproof/provenance.py:76-149 | a prepared entry carries exactly the request, at the position after the head read, verified at its own reading |
| `Provenance.HeadAccepted` | src/operationproof/attestation_store.py:64-108 | the check of a head passes exactly for a well-formed head with what is expected |
| `Provenance.DraftTrusted` | src/operationproof/provenance.py:90-149 | what the recorder checked, any later chain verification trusts |
| `Provenance.ReadBackSucceeds` | src/operationproof/provenance.py:150-170 | in any interleaving, the read-back finds the entry appended |
| `Provenance.StepKeepsInv` | src/operationproof/provenance.py:90-170 | each atomic step of any recorder keeps the store and thread invariants and leaves earlier records a prefix |
| `Provenance.RunKeepsInv` | src/operationproof/provenance.py:76-181 | so does every run |
| `Provenance.EveryRunLeavesValidChains` | src/operationproof/provenance.py:76-181 | after any interleaving, with any failures, every chain held is valid at every instant not before the readings used |
| `Provenance.RaceHasOneWinner` | src/operationproof/provenance.py:90-160 | of recorders at one position, once one has appended, the others fail and change nothing, whatever happens between |
| `Provenance.LoneRunIsRecording` | src/operationproof/provenance.py:76-181 | a recorder that runs alone through its three atomic steps does what one call does, in every failure too |
| `Provenance.RecordingSucceeds` | src/operationproof/provenance.py:76-181 | a lone recorder whose verifier has its signer's identity succeeds exactly for a sound, anchored, new event, states and codes included, while there is room and signer and verifier do their part |
| `Provenance.EscapesExactly` | src/operationproof/provenance.py:110-137 | an error escapes a recorder exactly when the head is in order and the event or its attestation is malformed |
| `Provenance.RecordEvent` | src/operationproof/provenance.py:76-181 | one call: on success the store grew by exactly the verified entry asked for, on failure it is unchanged |
| `GatewayExpiry.EarliestIsLeast` | src/operationproof/gateway.py:231 | the minimum by tuple order is a least instant |
| `GatewayExpiry.ComputeProofExpiry` | src/operationproof/gateway.py:214-241 | the loop over the evidence computes the expiry, or the first error |
| `GatewayExpiry.GrantedExpiry` | src/operationproof/gateway.py:214-241 | a granted expiry is after now, at most the time to live, and at most every evidence expiry |
| `GatewayExpiry.GrantedIsLeast` | src/operationproof/gateway.py:214-241 | a granted expiry is the least of the evidence expiries and the printed end of the time to live, and one of them |
| `GatewayExpiry.RefusedIffExpired` | src/operationproof/gateway.py:214-241 | an expiry is granted exactly for evidence that all expires later and a time to live that ends on a later datetime; a second or more always does |
| `GatewayExpiry.AdmittedProofStillVerifies` | src/operationproof/gateway.py:214-241 | a PRE proof admitted with an expiry verifies at every instant before it |
| `GatewayExpiry.FreshRecordMeansValidProof` | src/operationproof/gateway.py:244-272 | while the admission record is not expired, the admitted proof verifies |
| `GatewayExpiry.AdmitMeans` | src/operationproof/gateway.py:244-272 | what is admitted, exactly, and every field of the record: operation, digests, target of the subject, times |
| `GatewayStore.MemoryGatewayAdmissionStore.ReserveRecord` | src/operationproof/gateway_store.py:76-95 | reserve in place, with its eight draws: the new state and token, or the reason and no change |
| `GatewayStore.MemoryGatewayAdmissionStore.ConsumeToken` | src/operationproof/gateway_store.py:97-102 | consume in place: the token is gone and its record returned, or nothing changes |
| `GatewayStore.Conservation` | src/operationproof/gateway_store.py:76-102 | over any run: operations = proofs = outstanding tokens + consumes, within capacity, each consume returning the record of its own reserve |
| `GatewayStore.ReserveGranted` | src/operationproof/gateway_store.py:76-95 | reserve grants exactly a new operation and proof while there is room and a fresh draw; each refusal has its own reason |
| `GatewayStore.TokenIsWorthItsRecord` | src/operationproof/gateway_store.py:76-102 | after any calls that do not consume it, a granted token returns its record, and a second time nothing |
| `GatewayStore.OtherTokens` | src/operationproof/gateway_store.py:97-102 | consume returns a record exactly for a canonical, outstanding token, and changes nothing otherwise |
| `GatewayStore.ConsumesAreEntered` | src/operationproof/gateway_store.py:97-102 | the history of a run is what the store did |
| `GatewaySafety.StepIsSafe` | src/operationproof/gateway.py:438-585 | every atomic step of every handler keeps the safety invariant |
| `GatewaySafety.RunIsSafe` | src/operationproof/gateway.py:438-585 | so does every run, with any clock, tokens and requests |
| `GatewaySafety.DispatchedAtMostOnce` | src/operationproof/gateway.py:497-568 | no operation and no proof is dispatched twice, by the records and by the admitted proofs |
| `GatewaySafety.DispatchIsCovered` | src/operationproof/gateway.py:439-568 | each dispatch has the target, digests and operation of an admitted proof, a last reading before its expiry and time to live, at which the proof verifies, with one item per layer accepted by its registered verifier |
| `GatewayProgress.ProxyDispatches` | src/operationproof/gateway.py:497-568 | a proxy request is dispatched exactly when its token is good, the target is the admitted one, no reading is late and the events are recorded |
| `GatewayProgress.AdmissionAnswers` | src/operationproof/gateway.py:439-494 | an admission takes a slot exactly when accepted, admitted, recorded and granted, and hands out a token exactly when also usable and its creation recorded |
| `GatewayProgress.AdmittedRequestIsDispatched` | src/operationproof/gateway.py:438-585 | end to end: an admitted proof gets its request dispatched when its token is presented for the admitted target in time |
| `AttestedStore.AttestedGatewayAdmissionStore.Record` | src/operationproof/attested_gateway.py:36-47 | one recorder call around the store: the log after it, or no change and the kind of failure |
| `AttestedStore.RequestsAreEvents` | src/operationproof/attested_gateway.py:33-93 | the three events of an admission are acceptable exactly when its operation and digests are |
| `AttestedStore.RequestsAdd` | src/operationproof/attested_gateway.py:33-93 | what each of the three events adds to the log, field by field |
| `AttestedStore.AttestedGatewayAdmissionStore.ReserveAttested` | src/operationproof/attested_gateway.py:33-72 | reserve between its two events, case by case: store, log and answer; only the recorder's own errors become store errors |
| `AttestedStore.AttestedGatewayAdmissionStore.ReservingTells` | src/operationproof/attested_gateway.py:33-72 | a token in hand means exactly both events in order; otherwise at most the first, and a slot taken only if the store granted it |
| `AttestedStore.AttestedGatewayAdmissionStore.ConsumeAttested` | src/operationproof/attested_gateway.py:74-93 | the token is burned in every case; the record is returned only with its event recorded; other errors escape |
| `AttestedGateway.StepKeepsLife` | src/operationproof/attested_gateway.py:131-249 | every step keeps each operation's events equal to the trace of the handler that holds it |
| `AttestedGateway.RunKeepsLife` | src/operationproof/attested_gateway.py:131-249 | so does every run |
| `AttestedGateway.EventsAreALifecycle` | src/operationproof/attested_gateway.py:33-249 | in every attested run the events of an operation are a prefix of created, consumed, prepared, then failed, or dispatched followed by completed or failed |
| `AttestedGateway.EventsTellTheRequest` | src/operationproof/attested_gateway.py:131-249 | from the preparation on, the events carry the digests of one and the same request and its outcome |
| `AttestedGateway.DispatchIsAnnounced` | src/operationproof/attested_gateway.py:131-159 | every dispatch has its consumed entry and a prepared entry with this request's digest in the chain |
| `GatewayLog.StepKeepsLog` | src/operationproof/attested_gateway.py:33-249 | every handler step keeps the log a store of trusted, linked records |
| `GatewayLog.GatewayChainsAreValid` | src/operationproof/attested_gateway.py:33-249 | after every gateway run, each chain in the log is valid for the independent chain verifier at every instant not before the recorders' readings |

## Left out

- Assessment: a document is given by its container tree, whether it has a canonical form, and its proof; the tree of a proof is not derived from the proof.
- Python dynamic typing: wrong JSON types (evidence that is no list, a `pre_proof` of null, digests that are no text) are not documents of the model; a missing or non-text field is the empty string or None, and extra subject or binding fields are not represented.
- Metadata of evidence: a value is the subject-binding marker or opaque text.
- Clock reads inside one verification: the model fixes one instant per verification.
- Telemetry: export of telemetry events, which does not affect the store; the telemetry event itself appears by its digest.
- Locks: every store method is one atomic step; snapshots through JSON are copies.
- Gateway handlers: they are steps on values rather than methods of a class, because they interleave; the stores they call are classes.
- Gateway registry: it is fixed for a run, as deployment configuration.
- Request targets: `gateway_contract.py` is not part of this model; the target digest is an arbitrary function of the request that may refuse it.
- Provenance.RecordEvent: the checks of the head returned and of the entry read back are asserted, since they cannot fail on this store; the interleaved model keeps them as branches.
- Attestations.HeadCommitsToHistory: states "or a collision" instead of assuming an injective digest, for the reason given above.
- Attested gateway: an error while closing the upstream response is not modelled, and a reservation's token is not presented before it was answered.
- Error texts: the codes the recorder appends to `ATTESTATION_SIGNATURE_REJECTED`, and the particular code of a malformed telemetry event, are not distinguished.
- Execution receipts and final-proof attestation (`attest_execution_receipt`, `attest_final_proof`): thin wrappers of the recorder.
- HMAC signers, SHA-256, canonical JSON, base64, uuid: library code behind the arbitrary digest, signer and identifiers.
- JSON parsing limits other than depth, HTTP plumbing, the sidecar and runtime, the command line, provider adapters, conformance, manifests, observability export and repository governance: I/O or shallow checks.
