/** Timestamps in the syntax of section 5.6 of RFC 3339, parsed to exact instants. */
module Rfc3339 {
  import opened PyString
  import opened TimestampOrder
  import opened Calendar
  import opened LeapTimeline

  datatype Zone = Zulu(upper: bool) | Offset(negative: bool, hours: nat, minutes: nat)

  /** The groups of the timestamp pattern. */
  datatype Fields = Fields(year: nat, month: nat, day: nat, hour: nat, minute: nat, second: nat,
                           fraction: Option<string>, upperT: bool, zone: Zone)

  predicate WellFormed(f: Fields) {
    && f.year < 10000 && f.month < 100 && f.day < 100
    && f.hour < 100 && f.minute < 100 && f.second < 100
    && (f.fraction.Some? ==> f.fraction.value != [] && Digits(f.fraction.value))
    && (f.zone.Offset? ==> f.zone.hours < 100 && f.zone.minutes < 100)
  }

  // ----- printing -----

  function Pow10(w: nat): (p: nat)
    ensures p >= 1
  {
    if w == 0 then 1 else 10 * Pow10(w - 1)
  }

  /** `n` in `w` decimal digits. */
  function Pad(n: nat, w: nat): (s: string)
    ensures |s| == w && Digits(s)
    decreases w
  {
    if w == 0 then "" else Pad(n / 10, w - 1) + [DigitChar(n % 10)]
  }

  /** `int(s)` */
  function Number(s: string): (n: nat)
    requires Digits(s)
  {
    if s == [] then 0 else 10 * Number(s[..|s| - 1]) + DigitValue(s[|s| - 1])
  }

  lemma {:induction false} NumberPad(n: nat, w: nat)
    requires n < Pow10(w)
    ensures Number(Pad(n, w)) == n
    decreases w
  {
    if w == 0 {
    } else {
      NumberPad(n / 10, w - 1);
      assert Pad(n, w)[..w - 1] == Pad(n / 10, w - 1);
    }
  }

  lemma {:induction false} PadNumber(s: string)
    requires Digits(s)
    ensures Number(s) < Pow10(|s|) && Pad(Number(s), |s|) == s
  {
    if s == [] {
    } else {
      PadNumber(s[..|s| - 1]);
      assert Number(s) / 10 == Number(s[..|s| - 1]);
      assert s == s[..|s| - 1] + [s[|s| - 1]];
    }
  }

  function RenderZone(z: Zone): string {
    match z
    case Zulu(upper) => if upper then "Z" else "z"
    case Offset(negative, h, m) => (if negative then "-" else "+") + Pad(h, 2) + ":" + Pad(m, 2)
  }

  function RenderFraction(x: Option<string>): string {
    if x.None? then "" else "." + x.value
  }

  /** Three numbers of `w`, 2 and 2 digits with `sep` between them. */
  function RenderTriple(x: nat, w: nat, y: nat, z: nat, sep: char): (s: string)
    ensures |s| == w + 6
  {
    Pad(x, w) + [sep] + Pad(y, 2) + [sep] + Pad(z, 2)
  }

  function RenderClock(f: Fields): (s: string)
    ensures |s| == 19
  {
    RenderTriple(f.year, 4, f.month, f.day, '-') + [if f.upperT then 'T' else 't']
    + RenderTriple(f.hour, 2, f.minute, f.second, ':')
  }

  function Render(f: Fields): string {
    RenderClock(f) + RenderFraction(f.fraction) + RenderZone(f.zone)
  }

  // ----- the pattern -----

  function DigitRun(s: string): (k: nat)
    ensures k <= |s| && Digits(s[..k])
    ensures k == |s| || !('0' <= s[k] <= '9')
  {
    if s != [] && '0' <= s[0] <= '9' then 1 + DigitRun(s[1..]) else 0
  }

  function LexZone(s: string): Option<Zone> {
    if s == "Z" then Some(Zulu(true))
    else if s == "z" then Some(Zulu(false))
    else if |s| == 6 && (s[0] == '+' || s[0] == '-') && Digits(s[1..3]) && s[3] == ':' && Digits(s[4..6]) then
      Some(Offset(s[0] == '-', Number(s[1..3]), Number(s[4..6])))
    else None
  }

  predicate TripleShape(s: string, w: nat, sep: char) {
    |s| == w + 6 && Digits(s[..w]) && s[w] == sep && Digits(s[w + 1..w + 3]) && s[w + 3] == sep && Digits(s[w + 4..])
  }

  predicate ClockShape(s: string) {
    |s| == 19 && TripleShape(s[..10], 4, '-') && (s[10] == 'T' || s[10] == 't') && TripleShape(s[11..], 2, ':')
  }

  /** The fields of a matched clock reading. */
  function ClockOf(c: string, fraction: Option<string>, zone: Zone): Fields
    requires ClockShape(c)
  {
    var d, t := c[..10], c[11..];
    Fields(Number(d[..4]), Number(d[5..7]), Number(d[8..]),
           Number(t[..2]), Number(t[3..5]), Number(t[6..]), fraction, c[10] == 'T', zone)
  }

  datatype Tail = Tail(fraction: Option<string>, zone: Zone)

  /** The pattern after the seconds: an optional fraction of one digit or more, and the zone. */
  function LexTail(rest: string): Option<Tail> {
    var k := if rest != [] && rest[0] == '.' then 1 + DigitRun(rest[1..]) else 0;
    var zone := LexZone(rest[k..]);
    if k == 1 || zone.None? then None
    else Some(Tail(if k == 0 then None else Some(rest[1..k]), zone.value))
  }

  /** The full match of the timestamp pattern. */
  function Lex(s: string): Option<Fields> {
    if |s| < 19 || !ClockShape(s[..19]) then None
    else
      var tail := LexTail(s[19..]);
      if tail.None? then None else Some(ClockOf(s[..19], tail.value.fraction, tail.value.zone))
  }

  lemma {:induction false} DigitRunAppend(d: string, rest: string)
    requires Digits(d) && rest != [] && !('0' <= rest[0] <= '9')
    ensures DigitRun(d + rest) == |d|
  {
    if d == [] {
      assert d + rest == rest;
    } else {
      assert (d + rest)[1..] == d[1..] + rest;
      DigitRunAppend(d[1..], rest);
    }
  }

  lemma Pows()
    ensures Pow10(2) == 100 && Pow10(3) == 1000 && Pow10(4) == 10000 && Pow10(6) == 1000000
  {
  }

  lemma LexRenderZone(z: Zone)
    requires z.Offset? ==> z.hours < 100 && z.minutes < 100
    ensures LexZone(RenderZone(z)) == Some(z)
    ensures RenderZone(z) != [] && RenderZone(z)[0] != '.' && !('0' <= RenderZone(z)[0] <= '9')
  {
    hide Pad, Number, Pow10;
    if z.Offset? {
      Pows();
      NumberPad(z.hours, 2); NumberPad(z.minutes, 2);
      var s := RenderZone(z);
      assert s[1..3] == Pad(z.hours, 2) && s[4..6] == Pad(z.minutes, 2);
    }
  }

  lemma RenderLexZone(s: string)
    requires LexZone(s).Some?
    ensures RenderZone(LexZone(s).value) == s
    ensures LexZone(s).value.Offset? ==> LexZone(s).value.hours < 100 && LexZone(s).value.minutes < 100
  {
    hide Pad, Number, Pow10;
    if LexZone(s).value.Offset? {
      Pows();
      PadNumber(s[1..3]); PadNumber(s[4..6]);
      assert s == s[..1] + s[1..3] + s[3..4] + s[4..6];
    }
  }

  lemma TripleFields(x: nat, w: nat, y: nat, z: nat, sep: char)
    requires x < Pow10(w) && y < 100 && z < 100
    ensures var s := RenderTriple(x, w, y, z, sep);
            TripleShape(s, w, sep) && Number(s[..w]) == x && Number(s[w + 1..w + 3]) == y && Number(s[w + 4..]) == z
  {
    hide Pad, Number, Pow10;
    var s := RenderTriple(x, w, y, z, sep);
    Pows();
    assert s[..w] == Pad(x, w) && s[w + 1..w + 3] == Pad(y, 2) && s[w + 4..] == Pad(z, 2);
    NumberPad(x, w); NumberPad(y, 2); NumberPad(z, 2);
  }

  lemma TripleText(s: string, w: nat, sep: char)
    requires TripleShape(s, w, sep)
    ensures Number(s[..w]) < Pow10(w) && Number(s[w + 1..w + 3]) < 100 && Number(s[w + 4..]) < 100
    ensures RenderTriple(Number(s[..w]), w, Number(s[w + 1..w + 3]), Number(s[w + 4..]), sep) == s
  {
    hide Pad, Number, Pow10;
    Pows();
    PadNumber(s[..w]); PadNumber(s[w + 1..w + 3]); PadNumber(s[w + 4..]);
    assert s == s[..w] + [sep] + s[w + 1..w + 3] + [sep] + s[w + 4..];
  }

  lemma ClockFields(f: Fields)
    requires WellFormed(f)
    ensures ClockShape(RenderClock(f)) && ClockOf(RenderClock(f), f.fraction, f.zone) == f
  {
    hide Pad, Number, RenderTriple, TripleShape, Pow10;
    var c := RenderClock(f);
    Pows();
    TripleFields(f.year, 4, f.month, f.day, '-');
    TripleFields(f.hour, 2, f.minute, f.second, ':');
    assert c[..10] == RenderTriple(f.year, 4, f.month, f.day, '-');
    assert c[11..] == RenderTriple(f.hour, 2, f.minute, f.second, ':');
  }

  lemma ClockText(c: string, fraction: Option<string>, zone: Zone)
    requires ClockShape(c)
    ensures var f := ClockOf(c, fraction, zone);
            && RenderClock(f) == c
            && f.year < 10000 && f.month < 100 && f.day < 100 && f.hour < 100 && f.minute < 100 && f.second < 100
  {
    hide Pad, Number, Pow10, TripleShape, RenderTriple;
    Pows();
    TripleText(c[..10], 4, '-');
    TripleText(c[11..], 2, ':');
    assert c == c[..10] + [c[10]] + c[11..];
  }

  lemma LexRenderTail(x: Option<string>, z: Zone)
    requires x.Some? ==> x.value != [] && Digits(x.value)
    requires z.Offset? ==> z.hours < 100 && z.minutes < 100
    ensures LexTail(RenderFraction(x) + RenderZone(z)) == Some(Tail(x, z))
  {
    hide RenderZone, LexZone;
    LexRenderZone(z);
    var rest := RenderFraction(x) + RenderZone(z);
    if x.Some? {
      assert rest[1..] == x.value + RenderZone(z);
      DigitRunAppend(x.value, RenderZone(z));
      assert rest[1..1 + |x.value|] == x.value && rest[1 + |x.value|..] == RenderZone(z);
    } else {
      assert rest == RenderZone(z) && rest[0..] == rest;
    }
  }

  lemma RenderLexTail(rest: string)
    requires LexTail(rest).Some?
    ensures var t := LexTail(rest).value;
            && RenderFraction(t.fraction) + RenderZone(t.zone) == rest
            && (t.fraction.Some? ==> t.fraction.value != [] && Digits(t.fraction.value))
            && (t.zone.Offset? ==> t.zone.hours < 100 && t.zone.minutes < 100)
  {
    hide RenderZone, LexZone;
    var k := if rest != [] && rest[0] == '.' then 1 + DigitRun(rest[1..]) else 0;
    RenderLexZone(rest[k..]);
    if k > 0 {
      assert rest[1..k] == rest[1..][..k - 1];
      assert rest[..k] == "." + rest[1..k];
    }
    assert rest == rest[..k] + rest[k..];
  }

  /** Every well-formed rendering matches and gives its fields back. */
  lemma LexRender(f: Fields)
    requires WellFormed(f)
    ensures Lex(Render(f)) == Some(f)
  {
    hide RenderClock, ClockShape, ClockOf, RenderZone, RenderFraction, LexTail;
    var c, tail := RenderClock(f), RenderFraction(f.fraction) + RenderZone(f.zone);
    ClockFields(f);
    LexRenderTail(f.fraction, f.zone);
    assert Render(f) == c + tail;
    assert (c + tail)[..19] == c && (c + tail)[19..] == tail;
  }

  /** Every match is the rendering of its fields: the pattern accepts nothing else. */
  lemma RenderLex(s: string)
    requires Lex(s).Some?
    ensures WellFormed(Lex(s).value) && Render(Lex(s).value) == s
  {
    hide RenderClock, ClockShape, RenderZone, RenderFraction, LexTail;
    var t := LexTail(s[19..]).value;
    ClockText(s[..19], t.fraction, t.zone);
    RenderLexTail(s[19..]);
    assert s == s[..19] + s[19..];
  }

  // ----- the instant -----

  const MIN_POSIX: int := (MIN_ORDINAL - EPOCH_ORDINAL) * SECONDS_PER_DAY
  const MAX_POSIX: int := (MAX_ORDINAL - EPOCH_ORDINAL + 1) * SECONDS_PER_DAY - 1

  function OffsetSeconds(z: Zone): int {
    match z
    case Zulu(_) => 0
    case Offset(negative, h, m) =>
      var total := h * 3600 + m * 60;
      if negative then -total else total
  }

  /** POSIX second of a wall clock reading, read as UTC. */
  function ClockPosix(d: Date, hour: nat, minute: nat, second: nat): int
    requires ValidDate(d)
  {
    (Ordinal(d) - EPOCH_ORDINAL) * SECONDS_PER_DAY + hour * 3600 + minute * 60 + second
  }

  predicate UnknownLocalOffset(z: Zone) { z == Offset(true, 0, 0) }

  function Min(a: nat, b: nat): nat { if a <= b then a else b }

  /** The checks after the pattern matched. */
  function Resolve(f: Fields): Option<Timestamp> {
    var d := Date(f.year, f.month, f.day);
    if f.hour > 23 || f.minute > 59 || f.second > 60 then None
    else if UnknownLocalOffset(f.zone) then None // section 4.3 of RFC 3339
    else if f.zone.Offset? && (f.zone.hours > 23 || f.zone.minutes > 59) then None
    else if !ValidDate(d) then None
    else
      var posix := ClockPosix(d, f.hour, f.minute, Min(f.second, 59)) - OffsetSeconds(f.zone);
      var b := LeapBoundaries();
      var fraction := if f.fraction.None? then "" else f.fraction.value;
      if posix < MIN_POSIX || posix > MAX_POSIX then None
      else if f.second == 60 then
        var ofDay := posix % SECONDS_PER_DAY;
        if HourOf(ofDay) != 23 || MinuteOf(ofDay) != 59 || SecondOf(ofDay) != 59 || posix + 1 !in b then None
        else Some(Timestamp(posix + Passed(b, posix) + 1, fraction))
      else Some(Timestamp(posix + Passed(b, posix), fraction))
  }

  /** The fraction of a result is the matched one. */
  lemma ResolveDigits(f: Fields)
    requires WellFormed(f)
    ensures Resolve(f).Some? ==> Digits(Resolve(f).value.fraction)
  {
  }

  /** `parse_rfc3339` */
  function Parse(s: string): (r: Option<Timestamp>)
    ensures r.Some? ==> Digits(r.value.fraction)
  {
    hide Lex, Resolve, WellFormed, Render;
    var f := Lex(s);
    if f.None? then None
    else
      RenderLex(s);
      ResolveDigits(f.value);
      Resolve(f.value)
  }

  /** The stamp of a string that parses. */
  function Parsed(s: string): (t: Stamp)
    requires Parse(s).Some?
  {
    Parse(s).value
  }

  /** When the fields of a timestamp name a second of UTC. */
  predicate Names(f: Fields, u: UtcSecond) {
    var d := Date(f.year, f.month, f.day);
    var b := LeapBoundaries();
    && f.hour <= 23 && f.minute <= 59
    && ValidDate(d)
    && (f.zone.Offset? ==> f.zone.hours <= 23 && f.zone.minutes <= 59 && !UnknownLocalOffset(f.zone))
    && match u
       case Ordinary(p) =>
         && f.second <= 59 && MIN_POSIX <= p <= MAX_POSIX
         && p == ClockPosix(d, f.hour, f.minute, f.second) - OffsetSeconds(f.zone)
       case Leap(i) =>
         && f.second == 60 && i < |b|
         && b[i] == ClockPosix(d, f.hour, f.minute, 60) - OffsetSeconds(f.zone)
  }

  function FractionOf(f: Fields): string { if f.fraction.None? then "" else f.fraction.value }

  lemma LeapBoundariesInRange()
    ensures forall i | 0 <= i < |LeapBoundaries()| :: MIN_POSIX < LeapBoundaries()[i] <= MAX_POSIX
  {
    hide Ordinal;
    LeapDates();
    forall i | 0 <= i < |LeapBoundaries()| ensures MIN_POSIX < LeapBoundaries()[i] <= MAX_POSIX {
      var d := LEAP_SECOND_DATES[i];
      var last := Date(MAX_YEAR, 12, 31);
      OrdinalRange(d);
      OrdinalRange(last);
      EarlierYear(d, last);
    }
  }

  /** The last second of a UTC day. */
  lemma LastSecond(posix: int)
    ensures posix % SECONDS_PER_DAY == 86399 <==>
            (var ofDay := posix % SECONDS_PER_DAY;
             HourOf(ofDay) == 23 && MinuteOf(ofDay) == 59 && SecondOf(ofDay) == 59)
    ensures (posix + 1) % SECONDS_PER_DAY == 0 <==> posix % SECONDS_PER_DAY == 86399
  {
    ClockDigits(posix % SECONDS_PER_DAY);
    NextSecond(posix);
  }

  lemma ClockDigits(ofDay: nat)
    requires ofDay < SECONDS_PER_DAY
    ensures ofDay == 86399 <==> HourOf(ofDay) == 23 && MinuteOf(ofDay) == 59 && SecondOf(ofDay) == 59
  {
  }

  lemma NextSecond(posix: int)
    ensures (posix + 1) % SECONDS_PER_DAY == 0 <==> posix % SECONDS_PER_DAY == 86399
  {
  }

  lemma ResolveSound(f: Fields, u: UtcSecond)
    requires Names(f, u)
    ensures Known(LeapBoundaries(), u)
    ensures Resolve(f) == Some(Timestamp(Line(LeapBoundaries(), u), FractionOf(f)))
  {
    hide LeapBoundaries, Passed, Ordinal;
    if u.Leap? {
      var b := LeapBoundaries();
      LeapBoundariesInRange();
      LastSecond(b[u.index] - 1);
    }
  }

  lemma ResolveComplete(f: Fields)
    requires Resolve(f).Some?
    ensures exists u :: Names(f, u)
  {
    var d := Date(f.year, f.month, f.day);
    var posix := ClockPosix(d, f.hour, f.minute, Min(f.second, 59)) - OffsetSeconds(f.zone);
    if f.second == 60 {
      var b := LeapBoundaries();
      var i :| 0 <= i < |b| && b[i] == posix + 1;
      assert Names(f, Leap(i));
    } else {
      assert Names(f, Ordinary(posix));
    }
  }

  /** A rendering that names a UTC second parses to that second's place on the line. */
  lemma ParseSound(f: Fields, u: UtcSecond)
    requires WellFormed(f) && Names(f, u)
    ensures Known(LeapBoundaries(), u)
    ensures Parse(Render(f)) == Some(Timestamp(Line(LeapBoundaries(), u), FractionOf(f)))
  {
    hide Lex, Render, Resolve;
    LexRender(f);
    ResolveSound(f, u);
  }

  /** Every string that parses is a rendering that names a UTC second. */
  lemma ParseComplete(s: string)
    requires Parse(s).Some?
    ensures exists f, u :: WellFormed(f) && Names(f, u) && Render(f) == s
  {
    hide Lex, Render, Resolve, Names, WellFormed;
    RenderLex(s);
    ResolveComplete(Lex(s).value);
  }

  /** Parsing depends on the instant only: not on the offset, the letter case, or trailing zeros. */
  lemma ParseDependsOnInstant(f: Fields, g: Fields, u: UtcSecond, v: UtcSecond)
    requires WellFormed(f) && WellFormed(g) && Names(f, u) && Names(g, v)
    ensures Parse(Render(f)).Some? && Parse(Render(g)).Some?
    ensures u == v ==> Compare(Parsed(Render(f)), Parsed(Render(g)))
                       == CompareFractions(FractionOf(f), FractionOf(g))
    ensures Before(LeapBoundaries(), u, v) ==> Compare(Parsed(Render(f)), Parsed(Render(g))) < 0
  {
    hide Parse, Render, Line, Before, CompareFractions, Names, WellFormed;
    ParseSound(f, u);
    ParseSound(g, v);
    LineKeepsOrder(LeapBoundaries(), u, v);
  }

  // ----- clock readings -----

  const MICROS := 1000000

  /** An aware `datetime` in UTC: microseconds since 1970. */
  type DateTime = m: int | MIN_POSIX * MICROS <= m < (MAX_POSIX + 1) * MICROS witness 0

  function PosixOf(dt: DateTime): (p: int)
    ensures MIN_POSIX <= p <= MAX_POSIX
  {
    dt / MICROS
  }

  /** `dt + timedelta(seconds=seconds)`, unless it overflows. */
  function AddSeconds(dt: DateTime, seconds: int): (r: Option<DateTime>)
    ensures r.Some? ==> PosixOf(r.value) == PosixOf(dt) + seconds && r.value % MICROS == dt % MICROS
  {
    var m := dt + seconds * MICROS;
    if MIN_POSIX * MICROS <= m < (MAX_POSIX + 1) * MICROS then Some(m) else None
  }

  /** The clock reading `second` seconds into a day. */
  function HourOf(second: nat): nat { second / 3600 }
  function MinuteOf(second: nat): nat { second % 3600 / 60 }
  function SecondOf(second: nat): nat { second % 3600 % 60 }

  /** `timestamp_from_datetime` */
  function FromDateTime(dt: DateTime): (t: Stamp) {
    var p := PosixOf(dt);
    StripZerosValue(Pad(dt % MICROS, 6));
    Timestamp(p + Passed(LeapBoundaries(), p), StripZeros(Pad(dt % MICROS, 6)))
  }

  /** The fields `isoformat` prints for a UTC datetime, with fraction digits `x`. */
  function IsoFields(dt: DateTime, x: string): (f: Fields) {
    var p := PosixOf(dt);
    var day, ofDay := p / SECONDS_PER_DAY + EPOCH_ORDINAL, p % SECONDS_PER_DAY;
    var d := FromOrdinal(day);
    Fields(d.year, d.month, d.day, HourOf(ofDay), MinuteOf(ofDay), SecondOf(ofDay), Some(x), true, Offset(false, 0, 0))
  }

  /** `isoformat(timespec="milliseconds")` */
  function IsoMillis(dt: DateTime): string { Render(IsoFields(dt, Pad(dt % MICROS / 1000, 3))) }

  /** `isoformat(timespec="microseconds")` */
  function IsoMicros(dt: DateTime): string { Render(IsoFields(dt, Pad(dt % MICROS, 6))) }

  lemma IsoNames(dt: DateTime, x: string)
    requires x != [] && Digits(x)
    ensures WellFormed(IsoFields(dt, x)) && Names(IsoFields(dt, x), Ordinary(PosixOf(dt)))
  {
  }

  lemma MillisArePrefix(micro: nat)
    ensures Pad(micro, 6)[..3] == Pad(micro / 1000, 3)
  {
    assert micro / 10 / 10 / 10 == micro / 1000;
    assert Pad(micro, 6)[..5] == Pad(micro / 10, 5);
    assert Pad(micro / 10, 5)[..4] == Pad(micro / 10 / 10, 4);
    assert Pad(micro / 10 / 10, 4)[..3] == Pad(micro / 10 / 10 / 10, 3);
    assert Pad(micro, 6)[..3] == Pad(micro, 6)[..5][..4][..3];
  }

  lemma {:induction false} PrefixFraction(s: string, k: nat)
    requires Digits(s) && k <= |s|
    ensures FractionValue(s[..k]) <= FractionValue(s)
  {
    if k == 0 {
      FractionBounds(s);
    } else {
      assert s[..k][1..] == s[1..][..k - 1];
      PrefixFraction(s[1..], k - 1);
    }
  }

  /** A datetime printed to microseconds parses back to itself. */
  lemma MicrosRoundTrip(dt: DateTime)
    ensures Parse(IsoMicros(dt)).Some? && Compare(Parsed(IsoMicros(dt)), FromDateTime(dt)) == 0
  {
    hide Parse, Render, CompareFractions, Names, WellFormed, Passed;
    var x := Pad(dt % MICROS, 6);
    IsoNames(dt, x);
    ParseSound(IsoFields(dt, x), Ordinary(PosixOf(dt)));
    StripZerosValue(x);
    CompareIsSign(Parsed(IsoMicros(dt)), FromDateTime(dt));
  }

  /** Printed to milliseconds it parses to the same second, no later than itself. */
  lemma MillisNotLater(dt: DateTime)
    ensures Parse(IsoMillis(dt)).Some? && Compare(Parsed(IsoMillis(dt)), FromDateTime(dt)) <= 0
    ensures Parsed(IsoMillis(dt)).whole == FromDateTime(dt).whole
  {
    hide Parse, Render, CompareFractions, Names, WellFormed, Passed;
    var micro := dt % MICROS;
    var x, y := Pad(micro / 1000, 3), Pad(micro, 6);
    IsoNames(dt, x);
    ParseSound(IsoFields(dt, x), Ordinary(PosixOf(dt)));
    MillisArePrefix(micro);
    PrefixFraction(y, 3);
    StripZerosValue(y);
    CompareIsSign(Parsed(IsoMillis(dt)), FromDateTime(dt));
  }

  lemma FromDateTimeLaterSecond(a: DateTime, b: DateTime)
    requires PosixOf(a) < PosixOf(b)
    ensures FromDateTime(a).whole < FromDateTime(b).whole
  {
    LineKeepsOrder(LeapBoundaries(), Ordinary(PosixOf(a)), Ordinary(PosixOf(b)));
  }

  lemma {:induction false} LessAppend(p: string, q: string, u: string, v: string)
    requires |p| == |q| && Less(p, q)
    ensures Less(p + u, q + v)
  {
    if p == [] {
    } else {
      assert (p + u)[1..] == p[1..] + u && (q + v)[1..] == q[1..] + v;
      if p[0] == q[0] { LessAppend(p[1..], q[1..], u, v); }
    }
  }

  lemma {:induction false} LessLastDigit(p: string, c: char, d: char)
    requires c < d
    ensures Less(p + [c], p + [d])
  {
    if p == [] {
    } else {
      assert (p + [c])[1..] == p[1..] + [c] && (p + [d])[1..] == p[1..] + [d];
      LessLastDigit(p[1..], c, d);
    }
  }

  /** Padded numbers sort as numbers. */
  lemma {:induction false} PadKeepsOrder(x: nat, y: nat, w: nat)
    requires x < y < Pow10(w)
    ensures Less(Pad(x, w), Pad(y, w))
    decreases w
  {
    if w == 0 {
    } else {
      if x / 10 == y / 10 {
        LessLastDigit(Pad(x / 10, w - 1), DigitChar(x % 10), DigitChar(y % 10));
      } else {
        PadKeepsOrder(x / 10, y / 10, w - 1);
        LessAppend(Pad(x / 10, w - 1), Pad(y / 10, w - 1), [DigitChar(x % 10)], [DigitChar(y % 10)]);
      }
    }
  }

  lemma FromDateTimeSameSecond(a: DateTime, b: DateTime)
    requires PosixOf(a) == PosixOf(b) && a <= b
    ensures Compare(FromDateTime(a), FromDateTime(b)) <= 0
  {
    hide Passed, Pad, StripZeros, LeapBoundaries, CompareFractions;
    assert a % MICROS <= b % MICROS;
    MicrosInOrder(a % MICROS, b % MICROS);
    CompareIsSign(FromDateTime(a), FromDateTime(b));
  }

  /** Clock readings compare as the instants they are. */
  lemma FromDateTimeKeepsOrder(a: DateTime, b: DateTime)
    requires a <= b
    ensures Compare(FromDateTime(a), FromDateTime(b)) <= 0
  {
    hide FromDateTime, CompareFractions;
    if PosixOf(a) < PosixOf(b) {
      FromDateTimeLaterSecond(a, b);
    } else {
      FromDateTimeSameSecond(a, b);
    }
  }

  lemma MicrosInOrder(x: nat, y: nat)
    requires x <= y < MICROS
    ensures FractionValue(Pad(x, 6)) <= FractionValue(Pad(y, 6))
    ensures Digits(StripZeros(Pad(x, 6))) && FractionValue(StripZeros(Pad(x, 6))) == FractionValue(Pad(x, 6))
    ensures Digits(StripZeros(Pad(y, 6))) && FractionValue(StripZeros(Pad(y, 6))) == FractionValue(Pad(y, 6))
  {
    Pows();
    StripZerosValue(Pad(x, 6));
    StripZerosValue(Pad(y, 6));
    if x < y {
      PadKeepsOrder(x, y, 6);
      LessFractionValue(Pad(x, 6), Pad(y, 6));
    }
  }

  // ----- offsets -----

  /** A wall clock ahead of UTC names an earlier instant than the same reading in UTC, one behind a later one. */
  lemma OffsetMoves(f: Fields, p: int)
    requires Names(f, Ordinary(p)) && f.zone.Offset?
    ensures var q := if f.zone.negative then p - (f.zone.hours * 60 + f.zone.minutes) * 60
                     else p + (f.zone.hours * 60 + f.zone.minutes) * 60;
            MIN_POSIX <= q <= MAX_POSIX ==> Names(f.(zone := Zulu(true)), Ordinary(q))
  {
    hide ClockPosix, ValidDate, LeapBoundaries;
  }

  /** The unknown local offset of section 4.3 of RFC 3339 is refused. */
  lemma UnknownOffsetRefused(f: Fields)
    requires WellFormed(f) && f.zone == Offset(true, 0, 0)
    ensures Parse(Render(f)).None?
  {
    hide Lex, Render, WellFormed, ValidDate, LeapBoundaries, Passed, ClockPosix;
    LexRender(f);
  }

  /** Posix time counts the days of the calendar from 1970-01-01, and the seconds of a day. */
  lemma PosixFields(f: Fields, p: int)
    requires f.zone.Zulu? && Names(f, Ordinary(p))
    ensures p / SECONDS_PER_DAY == Ordinal(Date(f.year, f.month, f.day)) - Ordinal(Date(1970, 1, 1))
    ensures p % SECONDS_PER_DAY == f.hour * 3600 + f.minute * 60 + f.second
  {
    hide Ordinal, LeapBoundaries;
    EpochDay(Date(1970, 1, 1));
    var day := Ordinal(Date(f.year, f.month, f.day)) - EPOCH_ORDINAL;
    var ofDay := f.hour * 3600 + f.minute * 60 + f.second;
    assert p == day * SECONDS_PER_DAY + ofDay && 0 <= ofDay < SECONDS_PER_DAY;
  }
}
