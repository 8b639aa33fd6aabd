/** Evidence envelopes and the evaluation of one evidence set. */
module Evidences {
  import opened PyString
  import opened TimestampOrder
  import opened Rfc3339

  datatype Layer =
    | Identity | Authorization | Intent | Continuity | ToolSafety | DataFlow | Resource | Execution

  function LayerName(l: Layer): (name: string) {
    match l
    case Identity => "identity"
    case Authorization => "authorization"
    case Intent => "intent"
    case Continuity => "continuity"
    case ToolSafety => "tool_safety"
    case DataFlow => "data_flow"
    case Resource => "resource"
    case Execution => "execution"
  }

  const EXECUTION_LAYER: string := "execution"

  const PRE_LAYERS: set<string> :=
    {"identity", "authorization", "intent", "continuity", "tool_safety", "data_flow", "resource"}

  const EVIDENCE_SCHEMA := "operationproof.evidence-envelope.v1"
  const VERDICTS: set<string> := {"PASS", "FAIL", "UNKNOWN"}

  /** One metadata value: the subject-binding marker, or any other JSON value by its canonical text. */
  datatype Entry =
    | Marker(protocol: string, bindingDigest: string, nativeEnvelopeDigest: string, nativeSubjectDigest: string)
    | Json(text: string)

  type Metadata = map<string, Entry>

  /** An evidence document. A missing or non-text field is "", a metadata value that is no object is None,
      and `extra` lists the field names outside the envelope's own. */
  datatype Evidence = Evidence(schema: string, layer: string, provider: string, operationId: string,
                               decision: string, verdict: string, subjectDigest: string, evidenceDigest: string,
                               issuedAt: string, expiresAt: Option<string>, metadata: Option<Metadata>,
                               extra: set<string>)

  function Join(names: seq<string>): string {
    if names == [] then "" else if |names| == 1 then names[0] else names[0] + "," + Join(names[1..])
  }

  function DisplayLayer(e: Evidence, index: nat): string {
    if e.layer != "" then e.layer else "<invalid:" + Decimal(index) + ">"
  }

  /** `_unexpected_evidence_fields` */
  function UnexpectedFields(e: Evidence, index: nat): set<string> {
    When(e.extra != {}, "UNEXPECTED_EVIDENCE_FIELDS:" + DisplayLayer(e, index) + ":" + Join(SortedUnique(e.extra)))
  }

  predicate IsExpired(e: Evidence, now: Stamp) {
    e.expiresAt.Some? && Parse(e.expiresAt.value).Some? && Compare(Parsed(e.expiresAt.value), now) <= 0
  }

  predicate BadExpiryOrder(e: Evidence) {
    && e.expiresAt.Some? && Parse(e.expiresAt.value).Some? && Parse(e.issuedAt).Some?
    && Compare(Parsed(e.expiresAt.value), Parsed(e.issuedAt)) <= 0
  }

  function NameReasons(e: Evidence, index: nat): set<string> {
    var name := DisplayLayer(e, index);
    UnexpectedFields(e, index)
    + When(e.schema != EVIDENCE_SCHEMA, "UNSUPPORTED_EVIDENCE_SCHEMA:" + name)
    + When(e.layer == "", "INVALID_LAYER:" + Decimal(index))
    + When(e.provider == "", "INVALID_PROVIDER:" + name)
    + When(e.operationId == "", "INVALID_EVIDENCE_OPERATION_ID:" + name)
    + When(e.decision == "", "INVALID_NATIVE_DECISION:" + name)
    + When(e.verdict !in VERDICTS, "INVALID_VERDICT:" + name)
  }

  function ContentReasons(e: Evidence, index: nat): set<string> {
    var name := DisplayLayer(e, index);
    When(!ValidDigest(e.subjectDigest), "INVALID_DIGEST:" + name + ":subject_digest")
    + When(!ValidDigest(e.evidenceDigest), "INVALID_DIGEST:" + name + ":evidence_digest")
    + When(Parse(e.issuedAt).None?, "INVALID_ISSUED_AT:" + name)
    + When(e.expiresAt.Some? && Parse(e.expiresAt.value).None?, "INVALID_EXPIRY:" + name)
    + When(BadExpiryOrder(e), "INVALID_EXPIRY_ORDER:" + name)
    + When(e.metadata.None?, "INVALID_METADATA:" + name)
  }

  /** The envelope checks that do not look at the clock. */
  function ShapeReasons(e: Evidence, index: nat): set<string> { NameReasons(e, index) + ContentReasons(e, index) }

  /** `_validate_evidence_envelope` */
  function EnvelopeReasons(e: Evidence, index: nat, now: Stamp): set<string> {
    ShapeReasons(e, index) + When(IsExpired(e, now), "EXPIRED_EVIDENCE:" + DisplayLayer(e, index))
  }

  /** What one evaluation asks of its evidence. */
  datatype Rules = Rules(operationId: string, required: set<string>, forbidden: set<string>,
                         allowed: Option<set<string>>, subject: Option<string>)

  /** The checks of one item with a usable layer against the rules. */
  function PlacementReasons(e: Evidence, rules: Rules): set<string> {
    When(e.layer in rules.forbidden, "FORBIDDEN_LAYER:" + e.layer)
    + When(rules.allowed.Some? && e.layer !in rules.allowed.value, "UNEXPECTED_LAYER:" + e.layer)
    + When(e.operationId != rules.operationId, "OPERATION_ID_MISMATCH:" + e.layer)
    + When(rules.subject.Some? && e.subjectDigest != rules.subject.value, "SUBJECT_DIGEST_MISMATCH:" + e.layer)
    + When(e.verdict == "FAIL", "LAYER_FAIL:" + e.layer)
    + When(e.verdict != "FAIL" && e.verdict != "PASS", "LAYER_UNKNOWN:" + e.layer)
  }

  function ItemReasons(e: Evidence, index: nat, rules: Rules, now: Stamp): set<string> {
    EnvelopeReasons(e, index, now) + (if e.layer == "" then {} else PlacementReasons(e, rules))
  }

  /** How many items name layer `l`. */
  function LayerCount(ev: seq<Evidence>, l: string): (n: nat) {
    if ev == [] then 0
    else LayerCount(ev[..|ev| - 1], l) + (if ev[|ev| - 1].layer == l then 1 else 0)
  }

  /** Reasons of the first `n` items, duplicates among them included. */
  function PrefixReasons(ev: seq<Evidence>, n: nat, rules: Rules, now: Stamp): set<string>
    requires n <= |ev|
  {
    (set i, c | 0 <= i < n && c in ItemReasons(ev[i], i, rules, now) :: c)
    + (set i | 0 <= i < n && ev[i].layer != "" && LayerCount(ev[..n], ev[i].layer) >= 2 ::
         "DUPLICATE_LAYER:" + ev[i].layer)
  }

  function LayersSeen(ev: seq<Evidence>, n: nat): set<string>
    requires n <= |ev|
  {
    set i | 0 <= i < n && ev[i].layer != "" :: ev[i].layer
  }

  /** Why an evidence set does not verify at `now`; no reason means it does. */
  function SetReasons(ev: seq<Evidence>, rules: Rules, now: Stamp): set<string> {
    When(rules.subject.Some? && !ValidDigest(rules.subject.value), "INVALID_EXPECTED_SUBJECT_DIGEST")
    + PrefixReasons(ev, |ev|, rules, now)
    + (set l | l in rules.required - LayersSeen(ev, |ev|) :: "MISSING_LAYER:" + l)
  }

  // ----- the loop -----

  lemma {:induction false} LayerCountPositive(ev: seq<Evidence>, l: string)
    ensures LayerCount(ev, l) > 0 <==> exists i :: 0 <= i < |ev| && ev[i].layer == l
  {
    if ev == [] {
    } else {
      var n := |ev| - 1;
      LayerCountPositive(ev[..n], l);
      if ev[n].layer != l && LayerCount(ev, l) > 0 {
        var i :| 0 <= i < n && ev[..n][i].layer == l;
        assert ev[i].layer == l;
      }
    }
  }

  lemma PrefixStep(ev: seq<Evidence>, n: nat, rules: Rules, now: Stamp)
    requires n < |ev|
    ensures PrefixReasons(ev, n + 1, rules, now) ==
            PrefixReasons(ev, n, rules, now) + ItemReasons(ev[n], n, rules, now)
            + When(ev[n].layer != "" && ev[n].layer in LayersSeen(ev, n), "DUPLICATE_LAYER:" + ev[n].layer)
    ensures LayersSeen(ev, n + 1) == LayersSeen(ev, n) + (if ev[n].layer == "" then {} else {ev[n].layer})
  {
    hide ItemReasons;
    var l := ev[n].layer;
    assert ev[..n + 1][..n] == ev[..n];
    LayerCountPositive(ev[..n], l);
    assert l != "" ==> (LayerCount(ev[..n + 1], l) >= 2 <==> l in LayersSeen(ev, n));
    forall i | 0 <= i < n
      ensures LayerCount(ev[..n + 1], ev[i].layer) >= 2 <==>
              (LayerCount(ev[..n], ev[i].layer) >= 2 || ev[i].layer == l)
    {
      LayerCountPositive(ev[..n], ev[i].layer);
      assert ev[..n][i].layer == ev[i].layer;
    }
  }

  lemma PrefixEmpty(ev: seq<Evidence>, rules: Rules, now: Stamp)
    ensures PrefixReasons(ev, 0, rules, now) == {} && LayersSeen(ev, 0) == {}
  {
  }

  /** `evaluate_evidence_set`: the loop finds exactly the reasons there are. */
  method EvaluateEvidenceSet(ev: seq<Evidence>, rules: Rules, now: Stamp) returns (verified: bool, codes: seq<string>)
    ensures verified <==> SetReasons(ev, rules, now) == {}
    ensures codes == SortedUnique(SetReasons(ev, rules, now))
  {
    hide EnvelopeReasons, PlacementReasons, PrefixReasons, LayersSeen;
    PrefixEmpty(ev, rules, now);
    var reasons: set<string> := {};
    var seen: set<string> := {};
    if rules.subject.Some? && !ValidDigest(rules.subject.value) {
      reasons := reasons + {"INVALID_EXPECTED_SUBJECT_DIGEST"};
    }
    ghost var start := reasons;
    for index := 0 to |ev|
      invariant seen == LayersSeen(ev, index)
      invariant reasons == start + PrefixReasons(ev, index, rules, now)
    {
      var item := ev[index];
      var found := EnvelopeReasons(item, index, now);
      if item.layer != "" {
        if item.layer in seen {
          found := found + {"DUPLICATE_LAYER:" + item.layer};
        }
        found := found + PlacementReasons(item, rules);
      }
      FoundStep(ev, index, rules, now);
      reasons := reasons + found;
      if item.layer != "" {
        seen := seen + {item.layer};
      }
    }
    reasons := reasons + (set l | l in rules.required - seen :: "MISSING_LAYER:" + l);
    verified := reasons == {};
    codes := SortedUnique(reasons);
  }

  lemma FoundStep(ev: seq<Evidence>, n: nat, rules: Rules, now: Stamp)
    requires n < |ev|
    ensures var e := ev[n];
            var found := if e.layer == "" then EnvelopeReasons(e, n, now)
                         else if e.layer in LayersSeen(ev, n)
                         then EnvelopeReasons(e, n, now) + {"DUPLICATE_LAYER:" + e.layer} + PlacementReasons(e, rules)
                         else EnvelopeReasons(e, n, now) + PlacementReasons(e, rules);
            && PrefixReasons(ev, n + 1, rules, now) == PrefixReasons(ev, n, rules, now) + found
            && LayersSeen(ev, n + 1) == (if e.layer == "" then LayersSeen(ev, n) else LayersSeen(ev, n) + {e.layer})
  {
    hide EnvelopeReasons, PlacementReasons, PrefixReasons, LayersSeen;
    PrefixStep(ev, n, rules, now);
  }

  lemma ItemInSet(ev: seq<Evidence>, i: nat, rules: Rules, now: Stamp)
    requires i < |ev|
    ensures ItemReasons(ev[i], i, rules, now) <= PrefixReasons(ev, |ev|, rules, now) <= SetReasons(ev, rules, now)
  {
  }

  lemma DuplicateInSet(ev: seq<Evidence>, i: nat, rules: Rules, now: Stamp)
    requires i < |ev| && ev[i].layer != "" && LayerCount(ev, ev[i].layer) >= 2
    ensures "DUPLICATE_LAYER:" + ev[i].layer in PrefixReasons(ev, |ev|, rules, now)
  {
    hide ItemReasons;
    assert ev[..|ev|] == ev;
  }

  lemma MissingInSet(ev: seq<Evidence>, l: string, rules: Rules, now: Stamp)
    requires l in rules.required && l !in LayersSeen(ev, |ev|)
    ensures "MISSING_LAYER:" + l in SetReasons(ev, rules, now)
  {
  }

  // ----- order does not matter -----

  predicate AllLayered(ev: seq<Evidence>) { forall i | 0 <= i < |ev| :: ev[i].layer != "" }

  lemma {:induction false} LayerCountConcat(a: seq<Evidence>, b: seq<Evidence>, l: string)
    ensures LayerCount(a + b, l) == LayerCount(a, l) + LayerCount(b, l)
  {
    if b == [] {
      assert a + b == a;
    } else {
      assert (a + b)[..|a + b| - 1] == a + b[..|b| - 1];
      LayerCountConcat(a, b[..|b| - 1], l);
    }
  }

  lemma {:induction false} LayerCountPermutation(a: seq<Evidence>, b: seq<Evidence>, l: string)
    requires multiset(a) == multiset(b)
    ensures LayerCount(a, l) == LayerCount(b, l)
  {
    if a == [] {
      assert |multiset(a)| == |a| && |multiset(b)| == |b|;
      assert b == [];
    } else {
      var n := |a| - 1;
      var x := a[n];
      assert a == a[..n] + [x];
      assert x in multiset(b);
      var k :| 0 <= k < |b| && b[k] == x;
      RemoveAt(b, k, l);
      assert multiset(a) == multiset(a[..n]) + multiset{x};
      assert multiset(a[..n]) == multiset(a) - multiset{x};
      assert multiset(b[..k] + b[k + 1..]) == multiset(b) - multiset{x};
      LayerCountPermutation(a[..n], b[..k] + b[k + 1..], l);
    }
  }

  lemma RemoveAt(b: seq<Evidence>, k: nat, l: string)
    requires k < |b|
    ensures multiset(b) == multiset(b[..k] + b[k + 1..]) + multiset{b[k]}
    ensures LayerCount(b, l) == LayerCount(b[..k] + b[k + 1..], l) + (if b[k].layer == l then 1 else 0)
  {
    assert b == b[..k] + ([b[k]] + b[k + 1..]);
    LayerCountConcat(b[..k], [b[k]] + b[k + 1..], l);
    LayerCountConcat([b[k]], b[k + 1..], l);
    LayerCountConcat(b[..k], b[k + 1..], l);
    assert [b[k]][..0] == [];
  }

  lemma SameItems(a: seq<Evidence>, b: seq<Evidence>, i: nat) returns (j: nat)
    requires multiset(a) == multiset(b) && i < |a|
    ensures j < |b| && b[j] == a[i]
  {
    assert a[i] in multiset(b);
    j :| 0 <= j < |b| && b[j] == a[i];
  }

  lemma PermutationPrefix(a: seq<Evidence>, b: seq<Evidence>, rules: Rules, now: Stamp)
    requires multiset(a) == multiset(b) && AllLayered(a)
    ensures PrefixReasons(a, |a|, rules, now) <= PrefixReasons(b, |b|, rules, now)
  {
    hide ItemReasons;
    assert a[..|a|] == a;
    forall i | 0 <= i < |a| ensures ItemReasons(a[i], i, rules, now) <= PrefixReasons(b, |b|, rules, now) {
      var j := SameItems(a, b, i);
      IndexFree(a[i], i, j, rules, now);
      ItemInSet(b, j, rules, now);
    }
    forall i | 0 <= i < |a| && LayerCount(a, a[i].layer) >= 2
      ensures "DUPLICATE_LAYER:" + a[i].layer in PrefixReasons(b, |b|, rules, now)
    {
      var j := SameItems(a, b, i);
      LayerCountPermutation(a, b, a[i].layer);
      DuplicateInSet(b, j, rules, now);
    }
  }

  lemma PermutationLayers(a: seq<Evidence>, b: seq<Evidence>)
    requires multiset(a) == multiset(b)
    ensures LayersSeen(a, |a|) <= LayersSeen(b, |b|)
  {
    forall i | 0 <= i < |a| && a[i].layer != "" ensures a[i].layer in LayersSeen(b, |b|) {
      var j := SameItems(a, b, i);
      assert b[j].layer == a[i].layer;
    }
  }

  /** Positions only show in the reasons of items without a layer. */
  lemma IndexFree(e: Evidence, i: nat, j: nat, rules: Rules, now: Stamp)
    requires e.layer != ""
    ensures ItemReasons(e, i, rules, now) == ItemReasons(e, j, rules, now)
  {
  }

  /** Reordering evidence that has layers changes no reason. */
  lemma PermutationInvariance(a: seq<Evidence>, b: seq<Evidence>, rules: Rules, now: Stamp)
    requires multiset(a) == multiset(b) && AllLayered(a)
    ensures SetReasons(a, rules, now) == SetReasons(b, rules, now)
  {
    forall j | 0 <= j < |b| ensures b[j].layer != "" { assert b[j] in multiset(a); assert b[j] in a; }
    hide PrefixReasons, LayersSeen;
    PermutationPrefix(a, b, rules, now);
    PermutationPrefix(b, a, rules, now);
    PermutationLayers(a, b);
    PermutationLayers(b, a);
  }

  // ----- time -----

  /** As time passes, reasons only get added. */
  lemma ReasonsGrow(ev: seq<Evidence>, rules: Rules, t1: Stamp, t2: Stamp)
    requires Compare(t1, t2) <= 0
    ensures SetReasons(ev, rules, t1) <= SetReasons(ev, rules, t2)
  {
    hide ShapeReasons, PlacementReasons, Compare, Parse;
    forall i, c | 0 <= i < |ev| && c in ItemReasons(ev[i], i, rules, t1)
      ensures c in ItemReasons(ev[i], i, rules, t2)
    {
      if IsExpired(ev[i], t1) { CompareIsPreorder(Parsed(ev[i].expiresAt.value), t1, t2); }
    }
  }

  // ----- what a set without reasons is -----

  predicate NamesOk(e: Evidence) {
    && e.schema == EVIDENCE_SCHEMA && e.extra == {}
    && e.layer != "" && e.provider != "" && e.operationId != "" && e.decision != "" && e.verdict in VERDICTS
  }

  /** A well-formed envelope, unexpired at `now`. */
  predicate EnvelopeOk(e: Evidence, now: Stamp) {
    && NamesOk(e) && e.metadata.Some?
    && ValidDigest(e.subjectDigest) && ValidDigest(e.evidenceDigest)
    && Parse(e.issuedAt).Some?
    && (e.expiresAt.Some? ==>
          && Parse(e.expiresAt.value).Some?
          && Compare(Parsed(e.expiresAt.value), now) > 0
          && Compare(Parsed(e.expiresAt.value), Parsed(e.issuedAt)) > 0)
  }

  /** A passing item where the rules want it. */
  predicate PlacedOk(e: Evidence, rules: Rules) {
    && e.verdict == "PASS" && e.operationId == rules.operationId
    && e.layer !in rules.forbidden && (rules.allowed.Some? ==> e.layer in rules.allowed.value)
    && (rules.subject.Some? ==> e.subjectDigest == rules.subject.value)
  }

  predicate DistinctLayers(ev: seq<Evidence>) { forall i, j | 0 <= i < j < |ev| :: ev[i].layer != ev[j].layer }

  predicate Covers(ev: seq<Evidence>, layers: set<string>) {
    forall l | l in layers :: exists i :: 0 <= i < |ev| && ev[i].layer == l
  }

  predicate SetOk(ev: seq<Evidence>, rules: Rules, now: Stamp) {
    && (rules.subject.Some? ==> ValidDigest(rules.subject.value))
    && (forall i | 0 <= i < |ev| :: EnvelopeOk(ev[i], now) && PlacedOk(ev[i], rules))
    && DistinctLayers(ev) && Covers(ev, rules.required)
  }

  /** The layer-by-layer reading of the evaluation: a set verifies exactly when every item is well-formed, unexpired,
      passing and in place, no layer is named twice, and every required layer is there. */
  lemma SetClean(ev: seq<Evidence>, rules: Rules, now: Stamp)
    requires "" !in rules.required
    ensures SetReasons(ev, rules, now) == {} <==> SetOk(ev, rules, now)
  {
    hide EnvelopeOk, PlacedOk, ItemReasons, PrefixReasons, ValidDigest;
    var all := SetReasons(ev, rules, now);
    assert When(rules.subject.Some? && !ValidDigest(rules.subject.value), "INVALID_EXPECTED_SUBJECT_DIGEST") <= all;
    assert PrefixReasons(ev, |ev|, rules, now) <= all;
    ItemsClean(ev, rules, now);
    forall l | l in rules.required && l !in LayersSeen(ev, |ev|)
      ensures "MISSING_LAYER:" + l in all { MissingInSet(ev, l, rules, now); }
    assert all == {} ==> rules.required <= LayersSeen(ev, |ev|);
    assert Covers(ev, rules.required) <==> rules.required <= LayersSeen(ev, |ev|);
  }

  lemma ItemsClean(ev: seq<Evidence>, rules: Rules, now: Stamp)
    ensures PrefixReasons(ev, |ev|, rules, now) == {} <==>
            (forall i | 0 <= i < |ev| :: EnvelopeOk(ev[i], now) && PlacedOk(ev[i], rules)) && DistinctLayers(ev)
  {
    hide EnvelopeOk, PlacedOk, ItemReasons, PrefixReasons, SetReasons;
    forall i | 0 <= i < |ev|
      ensures ItemReasons(ev[i], i, rules, now) == {} <==> EnvelopeOk(ev[i], now) && PlacedOk(ev[i], rules)
      ensures ItemReasons(ev[i], i, rules, now) <= PrefixReasons(ev, |ev|, rules, now)
    {
      ItemClean(ev[i], i, rules, now);
      ItemInSet(ev, i, rules, now);
    }
    if PrefixReasons(ev, |ev|, rules, now) == {} {
      forall i | 0 <= i < |ev| ensures ev[i].layer != "" { Layered(ev[i], now); }
      NoDuplicates(ev, rules, now);
    } else if DistinctLayers(ev) && forall i | 0 <= i < |ev| :: ItemReasons(ev[i], i, rules, now) == {} {
      OnlyDuplicates(ev, rules, now);
    }
  }

  lemma Layered(e: Evidence, now: Stamp)
    requires EnvelopeOk(e, now)
    ensures e.layer != ""
  {
  }

  /** Items without reasons of their own leave only duplicates to find. */
  lemma OnlyDuplicates(ev: seq<Evidence>, rules: Rules, now: Stamp)
    requires DistinctLayers(ev) && forall i | 0 <= i < |ev| :: ItemReasons(ev[i], i, rules, now) == {}
    ensures PrefixReasons(ev, |ev|, rules, now) == {}
  {
    hide ItemReasons;
    assert ev[..|ev|] == ev;
    forall i | 0 <= i < |ev| ensures LayerCount(ev, ev[i].layer) < 2 { OnlyOne(ev, i); }
  }

  lemma OnlyOne(ev: seq<Evidence>, i: nat)
    requires i < |ev| && forall j | 0 <= j < |ev| && j != i :: ev[j].layer != ev[i].layer
    ensures LayerCount(ev, ev[i].layer) < 2
  {
    hide LayerCount;
    var l, rest := ev[i].layer, ev[..i] + ev[i + 1..];
    RemoveAt(ev, i, l);
    LayerCountPositive(rest, l);
    forall k | 0 <= k < |rest| ensures rest[k].layer != l {
      assert rest[k] == if k < i then ev[k] else ev[k + 1];
    }
  }

  lemma ItemClean(e: Evidence, i: nat, rules: Rules, now: Stamp)
    ensures ItemReasons(e, i, rules, now) == {} <==> EnvelopeOk(e, now) && PlacedOk(e, rules)
  {
    hide EnvelopeOk, PlacedOk, EnvelopeReasons, PlacementReasons;
    EnvelopeClean(e, i, now);
    if EnvelopeOk(e, now) { Layered(e, now); }
    PlacementClean(e, rules);
  }

  lemma EnvelopeClean(e: Evidence, i: nat, now: Stamp)
    ensures EnvelopeReasons(e, i, now) == {} <==> EnvelopeOk(e, now)
  {
  }

  lemma PlacementClean(e: Evidence, rules: Rules)
    ensures PlacementReasons(e, rules) == {} <==> PlacedOk(e, rules)
  {
  }

  lemma NoDuplicates(ev: seq<Evidence>, rules: Rules, now: Stamp)
    requires PrefixReasons(ev, |ev|, rules, now) == {} && AllLayered(ev)
    ensures DistinctLayers(ev)
  {
    hide ItemReasons, PrefixReasons;
    forall i, j | 0 <= i < j < |ev| ensures ev[i].layer != ev[j].layer {
      if ev[i].layer == ev[j].layer {
        TwiceCounted(ev, i, j);
        DuplicateInSet(ev, i, rules, now);
      }
    }
  }

  lemma TwiceCounted(ev: seq<Evidence>, i: nat, j: nat)
    requires i < j < |ev| && ev[i].layer == ev[j].layer
    ensures LayerCount(ev, ev[i].layer) >= 2
  {
    var l := ev[i].layer;
    assert ev == ev[..j] + ev[j..];
    LayerCountConcat(ev[..j], ev[j..], l);
    LayerCountPositive(ev[..j], l);
    LayerCountPositive(ev[j..], l);
    assert ev[..j][i].layer == l && ev[j..][0].layer == l;
  }

  /** A set without reasons at one instant has none exactly at the instants before every expiry in it. */
  lemma CleanUntilExpiry(ev: seq<Evidence>, rules: Rules, t0: Stamp, t: Stamp)
    requires "" !in rules.required && SetReasons(ev, rules, t0) == {}
    ensures SetReasons(ev, rules, t) == {} <==> forall i | 0 <= i < |ev| :: !IsExpired(ev[i], t)
  {
    hide SetReasons, Parse, Compare, ValidDigest, PlacedOk;
    SetClean(ev, rules, t0);
    SetClean(ev, rules, t);
  }
}
