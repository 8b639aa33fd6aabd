/** Exact comparison of timestamps: whole seconds plus an unbounded string of decimal digits. */
module TimestampOrder {
  import opened PyString

  datatype Timestamp = Timestamp(whole: int, fraction: string)

  /** What the parser and the clock conversion produce: the fraction holds digits only. */
  type Stamp = t: Timestamp | Digits(t.fraction) witness Timestamp(0, "")

  predicate AnyNonZero(s: string) { exists i | 0 <= i < |s| :: s[i] != '0' }

  function CompareFractions(left: string, right: string): int {
    var common := if |left| < |right| then |left| else |right|;
    var leftCommon, rightCommon := left[..common], right[..common];
    if Less(leftCommon, rightCommon) then -1
    else if Less(rightCommon, leftCommon) then 1
    else if |left| < |right| then (if AnyNonZero(right[common..]) then -1 else 0)
    else if |left| > |right| then (if AnyNonZero(left[common..]) then 1 else 0)
    else 0
  }

  function Compare(left: Timestamp, right: Timestamp): int {
    if left.whole < right.whole then -1
    else if left.whole > right.whole then 1
    else CompareFractions(left.fraction, right.fraction)
  }

  // ----- the rational number a timestamp stands for -----

  /** The number `0.d1d2d3...`, without rounding. */
  ghost function FractionValue(s: string): (v: real)
    requires Digits(s)
  {
    if s == [] then 0.0 else (DigitValue(s[0]) as real + FractionValue(s[1..])) / 10.0
  }

  ghost function Value(t: Stamp): real { t.whole as real + FractionValue(t.fraction) }

  ghost function Signum(x: real): int { if x < 0.0 then -1 else if x > 0.0 then 1 else 0 }

  lemma {:induction false} FractionBounds(s: string)
    requires Digits(s)
    ensures 0.0 <= FractionValue(s) < 1.0
  {
    if s == [] {
    } else {
      FractionBounds(s[1..]);
    }
  }

  lemma {:induction false} ZeroFraction(s: string)
    requires Digits(s)
    ensures FractionValue(s) == 0.0 <==> !AnyNonZero(s)
  {
    if s == [] {
    } else {
      ZeroFraction(s[1..]);
      FractionBounds(s[1..]);
      assert forall i | 0 <= i < |s[1..]| :: s[1..][i] == s[i + 1];
      if AnyNonZero(s) {
        var i :| 0 <= i < |s| && s[i] != '0';
        if i > 0 { assert s[1..][i - 1] != '0'; }
      } else {
        assert s[0] == '0';
      }
    }
  }

  /** Dropping an equal leading digit does not change the outcome. */
  lemma CompareFractionsTail(a: string, b: string)
    requires a != [] && b != [] && a[0] == b[0]
    ensures CompareFractions(a, b) == CompareFractions(a[1..], b[1..])
  {
    var c := if |a| < |b| then |a| else |b|;
    assert a[..c][1..] == a[1..][..c - 1] && b[..c][1..] == b[1..][..c - 1];
    assert a[c..] == a[1..][c - 1..] && b[c..] == b[1..][c - 1..];
  }

  lemma {:induction false} CompareFractionsIsSign(a: string, b: string)
    requires Digits(a) && Digits(b)
    ensures CompareFractions(a, b) == Signum(FractionValue(a) - FractionValue(b))
  {
    if a == [] {
      assert b[0..] == b;
      ZeroFraction(b); FractionBounds(b);
    } else if b == [] {
      assert a[0..] == a;
      ZeroFraction(a); FractionBounds(a);
    } else if a[0] == b[0] {
      CompareFractionsTail(a, b);
      CompareFractionsIsSign(a[1..], b[1..]);
    } else {
      FractionBounds(a[1..]); FractionBounds(b[1..]);
      assert Less(a[..1], b[..1]) <==> a[0] < b[0];
    }
  }

  /** Comparison is the sign of the exact rational difference. */
  lemma CompareIsSign(left: Stamp, right: Stamp)
    ensures Compare(left, right) == Signum(Value(left) - Value(right))
  {
    FractionBounds(left.fraction);
    FractionBounds(right.fraction);
    CompareFractionsIsSign(left.fraction, right.fraction);
    var dw := left.whole - right.whole;
    assert dw as real == left.whole as real - right.whole as real;
    if dw < 0 { assert dw <= -1; } else if dw > 0 { assert dw >= 1; }
  }

  /** A total preorder: comparable both ways, antisymmetric in sign, transitive. */
  lemma CompareIsPreorder(a: Stamp, b: Stamp, c: Stamp)
    ensures Compare(a, a) == 0
    ensures Compare(a, b) == -Compare(b, a)
    ensures Compare(a, b) <= 0 && Compare(b, c) <= 0 ==> Compare(a, c) <= 0
    ensures Compare(a, b) < 0 && Compare(b, c) <= 0 ==> Compare(a, c) < 0
    ensures Compare(a, b) <= 0 && Compare(b, c) < 0 ==> Compare(a, c) < 0
  {
    CompareIsSign(a, a);
    CompareIsSign(a, b);
    CompareIsSign(b, a);
    CompareIsSign(b, c);
    CompareIsSign(a, c);
  }

  // ----- ties -----

  /** `rstrip("0")` */
  function StripZeros(s: string): (r: string) {
    if s != [] && s[|s| - 1] == '0' then StripZeros(s[..|s| - 1]) else s
  }

  lemma {:induction false} StripZerosPrefix(s: string)
    ensures StripZeros(s) <= s
    ensures !AnyNonZero(s[|StripZeros(s)|..])
    ensures StripZeros(s) == [] || StripZeros(s)[|StripZeros(s)| - 1] != '0'
  {
    if s != [] && s[|s| - 1] == '0' {
      StripZerosPrefix(s[..|s| - 1]);
    }
  }

  lemma {:induction false} FractionValueAppend(s: string, zeros: string)
    requires Digits(s) && Digits(zeros) && !AnyNonZero(zeros)
    ensures Digits(s + zeros) && FractionValue(s + zeros) == FractionValue(s)
  {
    if s == [] {
      assert s + zeros == zeros;
      ZeroFraction(zeros);
    } else {
      assert (s + zeros)[1..] == s[1..] + zeros;
      FractionValueAppend(s[1..], zeros);
    }
  }

  lemma StripZerosValue(s: string)
    requires Digits(s)
    ensures Digits(StripZeros(s)) && FractionValue(StripZeros(s)) == FractionValue(s)
  {
    StripZerosPrefix(s);
    var k := |StripZeros(s)|;
    assert s == s[..k] + s[k..] && s[..k] == StripZeros(s);
    FractionValueAppend(s[..k], s[k..]);
  }

  /** Digit strings without trailing zeros have distinct values. */
  lemma {:induction false} StrippedInjective(a: string, b: string)
    requires Digits(a) && Digits(b) && FractionValue(a) == FractionValue(b)
    requires a == [] || a[|a| - 1] != '0'
    requires b == [] || b[|b| - 1] != '0'
    ensures a == b
  {
    if a == [] || b == [] {
      ZeroFraction(a); ZeroFraction(b);
    } else {
      FractionBounds(a[1..]); FractionBounds(b[1..]);
      assert a[0] == b[0];
      StrippedInjective(a[1..], b[1..]);
      assert a == [a[0]] + a[1..] && b == [b[0]] + b[1..];
    }
  }

  /** Two timestamps tie exactly when they differ only in trailing zeros. */
  lemma TiesAreTrailingZeroVariants(left: Stamp, right: Stamp)
    ensures Compare(left, right) == 0 <==>
            left.whole == right.whole && StripZeros(left.fraction) == StripZeros(right.fraction)
  {
    hide CompareFractions, StripZeros, AnyNonZero;
    CompareIsSign(left, right);
    FractionBounds(left.fraction);
    FractionBounds(right.fraction);
    StripZerosValue(left.fraction);
    StripZerosValue(right.fraction);
    StripZerosPrefix(left.fraction);
    StripZerosPrefix(right.fraction);
    if Compare(left, right) == 0 {
      assert left.whole == right.whole;
      StrippedInjective(StripZeros(left.fraction), StripZeros(right.fraction));
    }
  }

  // ----- Python's own order on (int, str) pairs -----

  /** `a < b` on Python tuples. */
  predicate TupleLess(a: Timestamp, b: Timestamp) {
    a.whole < b.whole || (a.whole == b.whole && Less(a.fraction, b.fraction))
  }

  lemma {:induction false} LessFractionValue(a: string, b: string)
    requires Digits(a) && Digits(b) && Less(a, b)
    ensures FractionValue(a) <= FractionValue(b)
  {
    if a == [] {
      FractionBounds(b);
    } else if a[0] == b[0] {
      LessFractionValue(a[1..], b[1..]);
    } else {
      FractionBounds(a[1..]); FractionBounds(b[1..]);
    }
  }

  /** The tuple order only breaks ties of the exact comparison. */
  lemma TupleOrderRefinesCompare(a: Stamp, b: Stamp)
    ensures TupleLess(a, b) ==> Compare(a, b) <= 0
    ensures Compare(a, b) < 0 ==> TupleLess(a, b)
  {
    if a.whole == b.whole {
      CompareFractionsIsSign(a.fraction, b.fraction);
      LessIsTotal(a.fraction, b.fraction);
      if Less(a.fraction, b.fraction) {
        LessFractionValue(a.fraction, b.fraction);
      } else if Less(b.fraction, a.fraction) {
        LessFractionValue(b.fraction, a.fraction);
      }
    }
  }
}
