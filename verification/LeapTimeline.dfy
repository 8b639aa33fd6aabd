/** The integer timeline with the published leap seconds inserted (section 5.7 of RFC 3339). */
module LeapTimeline {
  import opened Calendar

  const LEAP_SECOND_DATES: seq<Date> := [
    Date(1972, 6, 30), Date(1972, 12, 31), Date(1973, 12, 31), Date(1974, 12, 31),
    Date(1975, 12, 31), Date(1976, 12, 31), Date(1977, 12, 31), Date(1978, 12, 31),
    Date(1979, 12, 31), Date(1981, 6, 30), Date(1982, 6, 30), Date(1983, 6, 30),
    Date(1985, 6, 30), Date(1987, 12, 31), Date(1989, 12, 31), Date(1990, 12, 31),
    Date(1992, 6, 30), Date(1993, 6, 30), Date(1994, 6, 30), Date(1995, 12, 31),
    Date(1997, 6, 30), Date(1998, 12, 31), Date(2005, 12, 31), Date(2008, 12, 31),
    Date(2012, 6, 30), Date(2015, 6, 30), Date(2016, 12, 31)
  ]

  /** POSIX second of midnight after `d`. */
  function Boundary(d: Date): int
    requires ValidDate(d)
  {
    (Ordinal(d) - EPOCH_ORDINAL + 1) * SECONDS_PER_DAY
  }

  /** `_LEAP_BOUNDARIES_POSIX` */
  function Boundaries(dates: seq<Date>): (b: seq<int>)
    requires forall i | 0 <= i < |dates| :: ValidDate(dates[i])
    ensures |b| == |dates| && forall i | 0 <= i < |b| :: b[i] == Boundary(dates[i])
  {
    seq(|dates|, i requires 0 <= i < |dates| => Boundary(dates[i]))
  }

  predicate Later(a: Date, b: Date) {
    a.year < b.year || (a.year == b.year && a.month < b.month)
  }

  lemma LeapDates()
    ensures forall i | 0 <= i < |LEAP_SECOND_DATES| ::
              ValidDate(LEAP_SECOND_DATES[i]) && LEAP_SECOND_DATES[i].year < MAX_YEAR
    ensures forall i | 0 <= i < |LEAP_SECOND_DATES| - 1 :: Later(LEAP_SECOND_DATES[i], LEAP_SECOND_DATES[i + 1])
  {
  }

  function LeapBoundaries(): (b: seq<int>)
    ensures Increasing(b)
    ensures forall i | 0 <= i < |b| :: b[i] % SECONDS_PER_DAY == 0
  {
    LeapDates();
    BoundariesIncrease(LEAP_SECOND_DATES);
    Boundaries(LEAP_SECOND_DATES)
  }

  /** Strictly increasing, neighbours more than one second apart. */
  predicate Increasing(b: seq<int>) {
    forall i, j | 0 <= i < j < |b| :: b[i] + 1 < b[j]
  }

  lemma LaterBoundary(a: Date, b: Date)
    requires ValidDate(a) && ValidDate(b) && Later(a, b)
    ensures Boundary(a) + 1 < Boundary(b)
  {
    hide Ordinal;
    if a.year < b.year { EarlierYear(a, b); } else { EarlierMonth(a, b); }
  }

  lemma {:induction false} BoundariesIncrease(dates: seq<Date>)
    requires forall i | 0 <= i < |dates| :: ValidDate(dates[i])
    requires forall i | 0 <= i < |dates| - 1 :: Later(dates[i], dates[i + 1])
    ensures Increasing(Boundaries(dates))
  {
    if dates == [] {
    } else {
      var n := |dates| - 1;
      BoundariesIncrease(dates[..n]);
      var b := Boundaries(dates);
      forall i | 0 <= i < n ensures b[i] + 1 < b[n] {
        LaterBoundary(dates[n - 1], dates[n]);
        assert b[i] == Boundaries(dates[..n])[i] && b[n - 1] == Boundaries(dates[..n])[n - 1];
      }
      forall i, j | 0 <= i < j < |b| ensures b[i] + 1 < b[j] {
        if j < n {
          assert b[i] == Boundaries(dates[..n])[i] && b[j] == Boundaries(dates[..n])[j];
        }
      }
    }
  }

  /** `bisect.bisect_right(b, x)` on `b[lo..hi]`. */
  function BisectRight(b: seq<int>, x: int, lo: nat, hi: nat): (k: nat)
    requires Increasing(b) && lo <= hi <= |b|
    requires forall i | 0 <= i < lo :: b[i] <= x
    requires forall i | hi <= i < |b| :: x < b[i]
    ensures k <= |b|
    ensures forall i | 0 <= i < k :: b[i] <= x
    ensures forall i | k <= i < |b| :: x < b[i]
    decreases hi - lo
  {
    if lo < hi then
      var mid := (lo + hi) / 2;
      if x < b[mid] then BisectRight(b, x, lo, mid) else BisectRight(b, x, mid + 1, hi)
    else lo
  }

  /** How many boundaries of `b` are at or before `x`. */
  function Passed(b: seq<int>, x: int): (k: nat)
    requires Increasing(b)
    ensures k <= |b|
    ensures forall i | 0 <= i < k :: b[i] <= x
    ensures forall i | k <= i < |b| :: x < b[i]
  {
    BisectRight(b, x, 0, |b|)
  }

  // ----- UTC seconds and the line -----

  /** A second of UTC: an ordinary one by its POSIX number, or the one inserted before a boundary. */
  datatype UtcSecond = Ordinary(posix: int) | Leap(index: nat)

  predicate Known(b: seq<int>, u: UtcSecond) { u.Leap? ==> u.index < |b| }

  /** The integer the program gives to a UTC second. */
  function Line(b: seq<int>, u: UtcSecond): int
    requires Increasing(b) && Known(b, u)
  {
    match u
    case Ordinary(p) => p + Passed(b, p)
    case Leap(i) => (b[i] - 1) + Passed(b, b[i] - 1) + 1
  }

  /** UTC order: a leap second comes after every second before its boundary and before the boundary. */
  predicate Before(b: seq<int>, u: UtcSecond, v: UtcSecond)
    requires Known(b, u) && Known(b, v)
  {
    match (u, v)
    case (Ordinary(p), Ordinary(q)) => p < q
    case (Ordinary(p), Leap(j)) => p < b[j]
    case (Leap(i), Ordinary(q)) => b[i] <= q
    case (Leap(i), Leap(j)) => i < j
  }

  lemma PassedIs(b: seq<int>, x: int, k: nat)
    requires Increasing(b) && k <= |b|
    requires forall i | 0 <= i < k :: b[i] <= x
    requires forall i | k <= i < |b| :: x < b[i]
    ensures Passed(b, x) == k
  {
    var p := Passed(b, x);
    var atP := if p < |b| then b[p] else x + 1;
    var atK := if k < |b| then b[k] else x + 1;
    assert x < atP && x < atK;
  }

  lemma LeapLine(b: seq<int>, i: nat)
    requires Increasing(b) && i < |b|
    ensures Line(b, Leap(i)) == b[i] + i
    ensures Passed(b, b[i] - 1) == i && Passed(b, b[i]) == i + 1
  {
    PassedIs(b, b[i] - 1, i);
    PassedIs(b, b[i], i + 1);
  }

  lemma PassedMonotone(b: seq<int>, x: int, y: int)
    requires Increasing(b) && x <= y
    ensures Passed(b, x) <= Passed(b, y)
  {
    var p, q := Passed(b, x), Passed(b, y);
    var atQ := if q < |b| then b[q] else y + 1;
    assert y < atQ;
  }

  /** The timeline keeps UTC order, both ways. */
  lemma LineKeepsOrder(b: seq<int>, u: UtcSecond, v: UtcSecond)
    requires Increasing(b) && Known(b, u) && Known(b, v)
    ensures Before(b, u, v) <==> Line(b, u) < Line(b, v)
    ensures u == v <==> Line(b, u) == Line(b, v)
  {
    match (u, v) {
      case (Ordinary(p), Ordinary(q)) =>
        if p <= q { PassedMonotone(b, p, q); } else { PassedMonotone(b, q, p); }
      case (Ordinary(p), Leap(j)) => OrdinaryAgainstLeap(b, p, j);
      case (Leap(i), Ordinary(q)) => OrdinaryAgainstLeap(b, q, i);
      case (Leap(i), Leap(j)) =>
        LeapLine(b, i); LeapLine(b, j);
    }
  }

  lemma OrdinaryAgainstLeap(b: seq<int>, p: int, j: nat)
    requires Increasing(b) && j < |b|
    ensures p < b[j] ==> Line(b, Ordinary(p)) < Line(b, Leap(j))
    ensures b[j] <= p ==> Line(b, Leap(j)) < Line(b, Ordinary(p))
  {
    LeapLine(b, j);
    if p < b[j] { PassedMonotone(b, p, b[j] - 1); } else { PassedMonotone(b, b[j], p); }
  }

  /** Each leap second lands strictly between its two neighbours, and nothing else does. */
  lemma LeapSecondIsInserted(b: seq<int>, i: nat)
    requires Increasing(b) && i < |b|
    ensures Line(b, Ordinary(b[i] - 1)) + 1 == Line(b, Leap(i)) == Line(b, Ordinary(b[i])) - 1
  {
    LeapLine(b, i);
  }

  /** The UTC second at a place on the line. */
  ghost function Shifted(b: seq<int>): (c: seq<int>)
    requires Increasing(b)
    ensures |c| == |b| && Increasing(c)
    ensures forall i | 0 <= i < |c| :: c[i] == b[i] + i
  {
    seq(|b|, i requires 0 <= i < |b| => b[i] + i)
  }

  ghost function AtLine(b: seq<int>, n: int): (u: UtcSecond)
    requires Increasing(b)
    ensures Known(b, u)
  {
    var c := Shifted(b);
    var j := Passed(c, n);
    if j > 0 && c[j - 1] == n then Leap(j - 1) else Ordinary(n - j)
  }

  /** No integer is missed: together with LineKeepsOrder, a bijection. */
  lemma LineReachesEveryInteger(b: seq<int>, n: int)
    requires Increasing(b)
    ensures Line(b, AtLine(b, n)) == n
  {
    var c := Shifted(b);
    var j := Passed(c, n);
    if j > 0 && c[j - 1] == n {
      LeapLine(b, j - 1);
    } else {
      forall i | 0 <= i < j ensures b[i] <= n - j {
        assert c[i] <= c[j - 1] - (j - 1 - i) by { ShiftedGap(b, i, j - 1); }
        assert b[i] + i <= b[j - 1] + i;
        assert c[j - 1] <= n && c[j - 1] != n;
      }
      forall i | j <= i < |b| ensures n - j < b[i] {
        assert c[j] > n;
        if i > j { assert b[j] < b[i]; }
      }
      PassedIs(b, n - j, j);
    }
  }

  lemma ShiftedGap(b: seq<int>, i: nat, k: nat)
    requires Increasing(b) && i <= k < |b|
    ensures Shifted(b)[i] <= Shifted(b)[k] - (k - i)
  {
  }

  /** The table against POSIX time: twenty-seven boundaries, the first after June 1972 and the last after 2016. */
  lemma KnownBoundaries()
    ensures var b := LeapBoundaries();
            |b| == 27 && b[0] == 78796800 && b[26] == 1483228800
  {
    hide Ordinal;
    OrdinalFormula(LEAP_SECOND_DATES[0]);
    OrdinalFormula(LEAP_SECOND_DATES[26]);
  }
}
