/** The proleptic Gregorian calendar as `datetime` counts it, and its inverse. */
module Calendar {

  datatype Date = Date(year: int, month: int, day: int)

  const MIN_YEAR := 1
  const MAX_YEAR := 9999
  const EPOCH_ORDINAL := 719163 // 1970-01-01
  const SECONDS_PER_DAY := 86400

  predicate IsLeapYear(y: int) { y % 4 == 0 && (y % 100 != 0 || y % 400 == 0) }

  function DaysInMonth(y: int, m: int): (d: int)
    requires 1 <= m <= 12
    ensures 28 <= d <= 31
  {
    if m == 2 then (if IsLeapYear(y) then 29 else 28)
    else if m == 4 || m == 6 || m == 9 || m == 11 then 30
    else 31
  }

  predicate ValidDate(d: Date) {
    && MIN_YEAR <= d.year <= MAX_YEAR
    && 1 <= d.month <= 12
    && 1 <= d.day <= DaysInMonth(d.year, d.month)
  }

  /** Days before January 1st of year `y`. */
  function DaysBeforeYear(y: int): int
    requires y >= 1
  {
    var p := y - 1;
    p * 365 + p / 4 - p / 100 + p / 400
  }

  /** Days of year `y` before the first of month `m`. */
  function DaysBeforeMonth(y: int, m: int): int
    requires 1 <= m <= 13
    decreases m
  {
    if m == 1 then 0 else DaysBeforeMonth(y, m - 1) + DaysInMonth(y, m - 1)
  }

  function YearLength(y: int): int { if IsLeapYear(y) then 366 else 365 }

  /** 0001-01-01 is day 1. */
  function Ordinal(d: Date): int
    requires ValidDate(d)
  {
    DaysBeforeYear(d.year) + DaysBeforeMonth(d.year, d.month) + d.day
  }

  const MIN_ORDINAL := 1
  const MAX_ORDINAL := 3652059 // 9999-12-31

  lemma YearStep(y: int)
    requires y >= 1
    ensures DaysBeforeYear(y + 1) == DaysBeforeYear(y) + YearLength(y)
  {
    StepDiv(y, 4); StepDiv(y, 100); StepDiv(y, 400);
    MultipleOf(y);
  }

  lemma StepDiv(y: int, k: int)
    requires y >= 1 && (k == 4 || k == 100 || k == 400)
    ensures y / k == (y - 1) / k + (if y % k == 0 then 1 else 0)
  {
  }

  lemma MultipleOf(y: int)
    ensures y % 100 == 0 ==> y % 4 == 0
    ensures y % 400 == 0 ==> y % 100 == 0
  {
  }

  lemma MonthSteps(y: int)
    ensures DaysBeforeMonth(y, 13) == YearLength(y)
  {
  }

  // ----- inverse -----

  /** The month of year `y`, not before `m`, holding the `k`-th day of the year. */
  function MonthOf(y: int, k: int, m: int): (r: int)
    requires 1 <= m <= 12
    requires DaysBeforeMonth(y, m) < k <= DaysBeforeMonth(y, 13)
    ensures m <= r <= 12 && DaysBeforeMonth(y, r) < k <= DaysBeforeMonth(y, r + 1)
    decreases 12 - m
  {
    if k <= DaysBeforeMonth(y, m + 1) then m else MonthOf(y, k, m + 1)
  }

  /** The year, not before `y`, holding day number `n`. */
  function YearOf(n: int, y: int): (r: int)
    requires 1 <= y && DaysBeforeYear(y) < n
    ensures y <= r && DaysBeforeYear(r) < n <= DaysBeforeYear(r + 1)
    decreases n - DaysBeforeYear(y)
  {
    YearStep(y);
    if n <= DaysBeforeYear(y + 1) then y else YearOf(n, y + 1)
  }

  lemma {:induction false} YearsIncrease(a: int, b: int)
    requires 1 <= a <= b
    ensures DaysBeforeYear(a) + 365 * (b - a) <= DaysBeforeYear(b)
    decreases b
  {
    if a == b {
    } else {
      YearsIncrease(a, b - 1);
      YearStep(b - 1);
    }
  }

  lemma {:induction false} MonthsIncrease(y: int, a: int, b: int)
    requires 1 <= a <= b <= 13
    ensures DaysBeforeMonth(y, a) + 28 * (b - a) <= DaysBeforeMonth(y, b)
    decreases b
  {
    if a == b {
    } else {
      MonthsIncrease(y, a, b - 1);
    }
  }

  lemma OrdinalRange(d: Date)
    requires ValidDate(d)
    ensures DaysBeforeYear(d.year) < Ordinal(d) <= DaysBeforeYear(d.year + 1)
    ensures MIN_ORDINAL <= Ordinal(d) <= MAX_ORDINAL
  {
    MonthSteps(d.year);
    MonthsIncrease(d.year, 1, d.month);
    MonthsIncrease(d.year, d.month + 1, 13);
    YearStep(d.year);
    YearsIncrease(1, d.year);
    YearsIncrease(d.year + 1, 10000);
    assert DaysBeforeYear(10000) == MAX_ORDINAL;
  }

  /** The calendar date of a day number. */
  function FromOrdinal(n: int): (d: Date)
    requires MIN_ORDINAL <= n <= MAX_ORDINAL
    ensures ValidDate(d) && Ordinal(d) == n
  {
    var y := YearOf(n, 1);
    YearStep(y);
    MonthSteps(y);
    assert y <= MAX_YEAR by {
      if y > MAX_YEAR { YearsIncrease(10000, y); }
    }
    var k := n - DaysBeforeYear(y);
    var m := MonthOf(y, k, 1);
    Date(y, m, k - DaysBeforeMonth(y, m))
  }

  lemma EarlierYear(a: Date, b: Date)
    requires ValidDate(a) && ValidDate(b) && a.year < b.year
    ensures Ordinal(a) < Ordinal(b)
  {
    OrdinalRange(a);
    OrdinalRange(b);
    YearsIncrease(a.year + 1, b.year);
  }

  lemma EarlierMonth(a: Date, b: Date)
    requires ValidDate(a) && ValidDate(b) && a.year == b.year && a.month < b.month
    ensures Ordinal(a) < Ordinal(b)
  {
    MonthsIncrease(a.year, a.month + 1, b.month);
  }

  /** Day numbers and valid dates are in bijection. */
  lemma OrdinalInjective(a: Date, b: Date)
    requires ValidDate(a) && ValidDate(b)
    ensures Ordinal(a) == Ordinal(b) <==> a == b
    ensures MIN_ORDINAL <= Ordinal(a) <= MAX_ORDINAL && FromOrdinal(Ordinal(a)) == a
  {
    OrdinalRange(a);
    var c := FromOrdinal(Ordinal(a));
    if a != b { UniqueDate(a, b); }
    if c != a { UniqueDate(c, a); }
  }

  lemma UniqueDate(a: Date, b: Date)
    requires ValidDate(a) && ValidDate(b) && a != b
    ensures Ordinal(a) != Ordinal(b)
  {
    if a.year < b.year { EarlierYear(a, b); }
    else if b.year < a.year { EarlierYear(b, a); }
    else if a.month < b.month { EarlierMonth(a, b); }
    else if b.month < a.month { EarlierMonth(b, a); }
  }

  /** The day number in closed form: years by their leap days, months by one line with a correction after February. */
  lemma OrdinalFormula(d: Date)
    requires ValidDate(d)
    ensures Ordinal(d) ==
            365 * (d.year - 1) + (d.year - 1) / 4 - (d.year - 1) / 100 + (d.year - 1) / 400
            + (367 * d.month - 362) / 12
            + (if d.month <= 2 then 0
               else if d.year % 4 == 0 && (d.year % 100 != 0 || d.year % 400 == 0) then -1 else -2)
            + d.day
  {
    MonthFormula(d.year, d.month);
  }

  lemma {:induction false} MonthFormula(y: int, m: int)
    requires 1 <= m <= 12
    ensures DaysBeforeMonth(y, m) == (367 * m - 362) / 12 + (if m <= 2 then 0 else if IsLeapYear(y) then -1 else -2)
    decreases m
  {
    if m == 1 {
    } else {
      MonthFormula(y, m - 1);
    }
  }

  /** Days are numbered without gaps: the last day of a month is followed by the first of the next. */
  lemma NextDay(d: Date)
    requires ValidDate(d) && d.year < MAX_YEAR
    ensures var next := if d.day < DaysInMonth(d.year, d.month) then Date(d.year, d.month, d.day + 1)
                        else if d.month < 12 then Date(d.year, d.month + 1, 1) else Date(d.year + 1, 1, 1);
            ValidDate(next) && Ordinal(next) == Ordinal(d) + 1
  {
    MonthSteps(d.year);
    YearStep(d.year);
  }

  lemma EpochDay(d: Date)
    requires d == Date(1970, 1, 1)
    ensures ValidDate(d) && Ordinal(d) == EPOCH_ORDINAL
  {
    hide Ordinal;
    OrdinalFormula(d);
  }

  lemma FirstDay(d: Date)
    requires d == Date(1, 1, 1)
    ensures ValidDate(d) && Ordinal(d) == MIN_ORDINAL
  {
    hide Ordinal;
    OrdinalFormula(d);
  }

  lemma LastDay(d: Date)
    requires d == Date(9999, 12, 31)
    ensures ValidDate(d) && Ordinal(d) == MAX_ORDINAL
  {
    hide Ordinal;
    OrdinalFormula(d);
  }
}
