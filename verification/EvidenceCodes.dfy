/** What the reason codes of an evidence evaluation tell. */
module EvidenceCodes {
  import opened PyString
  import opened TimestampOrder
  import opened Rfc3339
  import opened Evidences

  /** The codes of an item that begin with this letter. */
  predicate Begins(c: string, letter: char) { c != "" && c[0] == letter }

  lemma NameLetters(e: Evidence, i: nat, c: string)
    requires c in NameReasons(e, i)
    ensures Begins(c, 'U') || Begins(c, 'I')
  {
    hide DisplayLayer, SortedUnique, Join;
  }

  lemma ContentLetters(e: Evidence, i: nat, c: string)
    requires c in ContentReasons(e, i)
    ensures Begins(c, 'I')
  {
    hide DisplayLayer, ValidDigest, Parse, BadExpiryOrder;
  }

  /** The codes of one item that say why it is refused where it stands. */
  predicate PlacementCode(e: Evidence, rules: Rules, c: string) {
    || (Begins(c, 'F') && e.layer in rules.forbidden && c == "FORBIDDEN_LAYER:" + e.layer)
    || (Begins(c, 'U') && rules.allowed.Some? && e.layer !in rules.allowed.value && c == "UNEXPECTED_LAYER:" + e.layer)
    || (Begins(c, 'O') && e.operationId != rules.operationId && c == "OPERATION_ID_MISMATCH:" + e.layer)
    || (Begins(c, 'S') && rules.subject.Some? && e.subjectDigest != rules.subject.value
        && c == "SUBJECT_DIGEST_MISMATCH:" + e.layer)
    || (Begins(c, 'L') && e.verdict == "FAIL" && c == "LAYER_FAIL:" + e.layer)
    || (Begins(c, 'L') && e.verdict != "FAIL" && e.verdict != "PASS" && c == "LAYER_UNKNOWN:" + e.layer)
  }

  lemma PlacementCodes(e: Evidence, rules: Rules, c: string)
    ensures c in PlacementReasons(e, rules) <==> PlacementCode(e, rules, c)
  {
  }

  /** The codes of one item, apart from those about its own fields. */
  predicate ItemCode(e: Evidence, i: nat, rules: Rules, now: Stamp, c: string) {
    || (Begins(c, 'E') && IsExpired(e, now) && c == "EXPIRED_EVIDENCE:" + DisplayLayer(e, i))
    || (e.layer != "" && PlacementCode(e, rules, c))
  }

  lemma ItemCodes(e: Evidence, i: nat, rules: Rules, now: Stamp, c: string)
    requires !Begins(c, 'U') && !Begins(c, 'I')
    ensures c in ItemReasons(e, i, rules, now) <==> ItemCode(e, i, rules, now, c)
  {
    hide NameReasons, ContentReasons, PlacementReasons, PlacementCode, IsExpired, DisplayLayer;
    if c in NameReasons(e, i) { NameLetters(e, i, c); }
    if c in ContentReasons(e, i) { ContentLetters(e, i, c); }
    PlacementCodes(e, rules, c);
  }

  /** Which code a set of evidence gets, letter by letter. */
  lemma SetCodes(ev: seq<Evidence>, rules: Rules, now: Stamp, c: string)
    requires !Begins(c, 'U') && !Begins(c, 'I')
    ensures c in SetReasons(ev, rules, now) <==>
            || (exists i :: 0 <= i < |ev| && ItemCode(ev[i], i, rules, now, c))
            || (exists i :: 0 <= i < |ev| && ev[i].layer != "" && LayerCount(ev, ev[i].layer) >= 2
                            && c == "DUPLICATE_LAYER:" + ev[i].layer)
            || (exists l :: l in rules.required && l !in LayersSeen(ev, |ev|) && c == "MISSING_LAYER:" + l)
  {
    hide ItemReasons, ItemCode, LayersSeen, ValidDigest;
    assert ev[..|ev|] == ev;
    forall i | 0 <= i < |ev| ensures c in ItemReasons(ev[i], i, rules, now) <==> ItemCode(ev[i], i, rules, now, c) {
      ItemCodes(ev[i], i, rules, now, c);
    }
  }

  lemma SameTail(p: string, x: string, y: string)
    requires p + x == p + y
    ensures x == y
  {
    assert (p + x)[|p|..] == x && (p + y)[|p|..] == y;
  }

  predicate HasVerdict(ev: seq<Evidence>, l: string, failed: bool) {
    exists i :: 0 <= i < |ev| && ev[i].layer == l
                && (if failed then ev[i].verdict == "FAIL" else ev[i].verdict != "FAIL" && ev[i].verdict != "PASS")
  }

  /** An item's layer code tells its verdict: FAIL and anything that is neither PASS nor FAIL are told apart. */
  lemma VerdictCodes(ev: seq<Evidence>, rules: Rules, now: Stamp, l: string)
    requires l != ""
    ensures "LAYER_FAIL:" + l in SetReasons(ev, rules, now) <==> HasVerdict(ev, l, true)
    ensures "LAYER_UNKNOWN:" + l in SetReasons(ev, rules, now) <==> HasVerdict(ev, l, false)
  {
    hide SetReasons, LayersSeen, IsExpired, DisplayLayer;
    var f, u := "LAYER_FAIL:" + l, "LAYER_UNKNOWN:" + l;
    assert f[6] == 'F' && u[6] == 'U';
    SetCodes(ev, rules, now, f);
    SetCodes(ev, rules, now, u);
    forall i | 0 <= i < |ev|
      ensures ItemCode(ev[i], i, rules, now, f) <==> ev[i].layer == l && ev[i].verdict == "FAIL"
      ensures ItemCode(ev[i], i, rules, now, u) <==>
              ev[i].layer == l && ev[i].verdict != "FAIL" && ev[i].verdict != "PASS"
    {
      VerdictCode(ev[i], i, rules, now, l);
    }
  }

  lemma VerdictCode(e: Evidence, i: nat, rules: Rules, now: Stamp, l: string)
    requires l != ""
    ensures ItemCode(e, i, rules, now, "LAYER_FAIL:" + l) <==> e.layer == l && e.verdict == "FAIL"
    ensures ItemCode(e, i, rules, now, "LAYER_UNKNOWN:" + l) <==>
            e.layer == l && e.verdict != "FAIL" && e.verdict != "PASS"
  {
    hide IsExpired, DisplayLayer;
    var f, u, g, v := "LAYER_FAIL:" + l, "LAYER_UNKNOWN:" + l, "LAYER_FAIL:" + e.layer, "LAYER_UNKNOWN:" + e.layer;
    assert f[6] == 'F' && g[6] == 'F' && u[6] == 'U' && v[6] == 'U';
    if f == g { SameTail("LAYER_FAIL:", l, e.layer); }
    if u == v { SameTail("LAYER_UNKNOWN:", l, e.layer); }
  }

  /** A layer is called missing exactly when it is required and no item names it, and duplicate exactly when two do. */
  lemma LayerCodes(ev: seq<Evidence>, rules: Rules, now: Stamp, l: string)
    requires l != ""
    ensures "MISSING_LAYER:" + l in SetReasons(ev, rules, now) <==>
            l in rules.required && forall i | 0 <= i < |ev| :: ev[i].layer != l
    ensures "DUPLICATE_LAYER:" + l in SetReasons(ev, rules, now) <==>
            exists i, j :: 0 <= i < j < |ev| && ev[i].layer == l && ev[j].layer == l
  {
    hide SetReasons, IsExpired, DisplayLayer, LayerCount;
    var m, d := "MISSING_LAYER:" + l, "DUPLICATE_LAYER:" + l;
    SetCodes(ev, rules, now, m);
    SetCodes(ev, rules, now, d);
    forall x | x == l || "MISSING_LAYER:" + x == m || "DUPLICATE_LAYER:" + x == d ensures x == l {
      if "MISSING_LAYER:" + x == m { SameTail("MISSING_LAYER:", x, l); }
      if "DUPLICATE_LAYER:" + x == d { SameTail("DUPLICATE_LAYER:", x, l); }
    }
    Twice(ev, l);
  }

  lemma Twice(ev: seq<Evidence>, l: string)
    ensures (exists i :: 0 <= i < |ev| && ev[i].layer == l && LayerCount(ev, l) >= 2) <==>
            exists i, j :: 0 <= i < j < |ev| && ev[i].layer == l && ev[j].layer == l
  {
    hide LayerCount;
    if i, j :| 0 <= i < j < |ev| && ev[i].layer == l && ev[j].layer == l {
      TwiceCounted(ev, i, j);
    } else if i :| 0 <= i < |ev| && ev[i].layer == l {
      OnlyOne(ev, i);
    }
  }

  /** An item is called expired, foreign, about another subject, or forbidden exactly when it is. */
  lemma PlaceCodes(ev: seq<Evidence>, rules: Rules, now: Stamp, l: string)
    requires AllLayered(ev) && l != ""
    ensures "EXPIRED_EVIDENCE:" + l in SetReasons(ev, rules, now) <==>
            exists i :: 0 <= i < |ev| && ev[i].layer == l && IsExpired(ev[i], now)
    ensures "OPERATION_ID_MISMATCH:" + l in SetReasons(ev, rules, now) <==>
            exists i :: 0 <= i < |ev| && ev[i].layer == l && ev[i].operationId != rules.operationId
    ensures "SUBJECT_DIGEST_MISMATCH:" + l in SetReasons(ev, rules, now) <==>
            && rules.subject.Some?
            && exists i :: 0 <= i < |ev| && ev[i].layer == l && ev[i].subjectDigest != rules.subject.value
    ensures "FORBIDDEN_LAYER:" + l in SetReasons(ev, rules, now) <==>
            l in rules.forbidden && exists i :: 0 <= i < |ev| && ev[i].layer == l
  {
    hide SetReasons, LayersSeen, LayerCount, IsExpired, ItemCode;
    SetCodes(ev, rules, now, "EXPIRED_EVIDENCE:" + l);
    SetCodes(ev, rules, now, "OPERATION_ID_MISMATCH:" + l);
    SetCodes(ev, rules, now, "SUBJECT_DIGEST_MISMATCH:" + l);
    SetCodes(ev, rules, now, "FORBIDDEN_LAYER:" + l);
    forall i | 0 <= i < |ev|
      ensures ItemCode(ev[i], i, rules, now, "EXPIRED_EVIDENCE:" + l) <==> ev[i].layer == l && IsExpired(ev[i], now)
      ensures ItemCode(ev[i], i, rules, now, "OPERATION_ID_MISMATCH:" + l) <==>
              ev[i].layer == l && ev[i].operationId != rules.operationId
      ensures ItemCode(ev[i], i, rules, now, "SUBJECT_DIGEST_MISMATCH:" + l) <==>
              ev[i].layer == l && rules.subject.Some? && ev[i].subjectDigest != rules.subject.value
      ensures ItemCode(ev[i], i, rules, now, "FORBIDDEN_LAYER:" + l) <==> ev[i].layer == l && l in rules.forbidden
    {
      PlaceCode(ev[i], i, rules, now, l);
    }
  }

  lemma PlaceCode(e: Evidence, i: nat, rules: Rules, now: Stamp, l: string)
    requires e.layer != ""
    ensures ItemCode(e, i, rules, now, "EXPIRED_EVIDENCE:" + l) <==> e.layer == l && IsExpired(e, now)
    ensures ItemCode(e, i, rules, now, "OPERATION_ID_MISMATCH:" + l) <==>
            e.layer == l && e.operationId != rules.operationId
    ensures ItemCode(e, i, rules, now, "SUBJECT_DIGEST_MISMATCH:" + l) <==>
            e.layer == l && rules.subject.Some? && e.subjectDigest != rules.subject.value
    ensures ItemCode(e, i, rules, now, "FORBIDDEN_LAYER:" + l) <==> e.layer == l && l in rules.forbidden
  {
    hide IsExpired;
    if "EXPIRED_EVIDENCE:" + l == "EXPIRED_EVIDENCE:" + e.layer { SameTail("EXPIRED_EVIDENCE:", l, e.layer); }
    if "OPERATION_ID_MISMATCH:" + l == "OPERATION_ID_MISMATCH:" + e.layer {
      SameTail("OPERATION_ID_MISMATCH:", l, e.layer);
    }
    if "SUBJECT_DIGEST_MISMATCH:" + l == "SUBJECT_DIGEST_MISMATCH:" + e.layer {
      SameTail("SUBJECT_DIGEST_MISMATCH:", l, e.layer);
    }
    if "FORBIDDEN_LAYER:" + l == "FORBIDDEN_LAYER:" + e.layer { SameTail("FORBIDDEN_LAYER:", l, e.layer); }
  }
}
