/** Text as the program handles it: Python's code-point order on strings, `sorted(set(...))`
    on reason codes, the canonical text and digest checks, and decimal printing. */
module PyString {

  datatype Option<+T> = None | Some(value: T)

  datatype Result<+T, +E> = Ok(value: T) | Err(error: E)

  /** `a < b` on Python strings. */
  predicate Less(a: string, b: string) {
    if b == [] then false
    else if a == [] then true
    else if a[0] != b[0] then a[0] < b[0]
    else Less(a[1..], b[1..])
  }

  lemma {:induction false} LessIsTotal(a: string, b: string)
    ensures a == b || Less(a, b) || Less(b, a)
  {
    if a == [] || b == [] || a[0] != b[0] {
    } else {
      LessIsTotal(a[1..], b[1..]);
      assert a == [a[0]] + a[1..] && b == [b[0]] + b[1..];
    }
  }

  lemma {:induction false} LessIsAsymmetric(a: string, b: string)
    requires Less(a, b)
    ensures a != b && !Less(b, a)
  {
    if a == [] || a[0] != b[0] {
    } else {
      LessIsAsymmetric(a[1..], b[1..]);
    }
  }

  lemma {:induction false} LessIsTransitive(a: string, b: string, c: string)
    requires Less(a, b) && Less(b, c)
    ensures Less(a, c)
  {
    if a == [] || !(a[0] == b[0] == c[0]) {
    } else {
      LessIsTransitive(a[1..], b[1..], c[1..]);
    }
  }

  predicate IsLeast(m: string, s: set<string>) {
    m in s && forall y | y in s :: y == m || Less(m, y)
  }

  lemma {:induction false} LeastExists(s: set<string>)
    requires s != {}
    ensures exists m :: IsLeast(m, s)
    decreases |s|
  {
    var x :| x in s;
    var rest := s - {x};
    if rest == {} {
      forall y | y in s ensures y == x { assert y == x || y in rest; }
      assert IsLeast(x, s);
    } else {
      LeastExists(rest);
      var m :| IsLeast(m, rest);
      LessIsTotal(x, m);
      if Less(x, m) {
        forall y | y in s ensures y == x || Less(x, y) {
          if y != x && y != m { LessIsTransitive(x, m, y); }
        }
        assert IsLeast(x, s);
      } else {
        assert IsLeast(m, s);
      }
    }
  }

  lemma LeastIsUnique(s: set<string>)
    ensures forall a, b | IsLeast(a, s) && IsLeast(b, s) :: a == b
  {
    forall a, b | IsLeast(a, s) && IsLeast(b, s) ensures a == b {
      if a != b { LessIsAsymmetric(a, b); }
    }
  }

  /** `sorted(set(reasons))`. */
  function SortedUnique(s: set<string>): (r: seq<string>)
    decreases |s|
  {
    if s == {} then []
    else
      LeastExists(s); LeastIsUnique(s);
      var m :| IsLeast(m, s);
      [m] + SortedUnique(s - {m})
  }

  lemma {:induction false} SortedUniqueElements(s: set<string>)
    ensures forall x :: x in SortedUnique(s) <==> x in s
    decreases |s|
  {
    if s == {} {
    } else {
      LeastExists(s); LeastIsUnique(s);
      var m :| IsLeast(m, s);
      SortedUniqueElements(s - {m});
    }
  }

  lemma {:induction false} SortedUniqueIsSorted(s: set<string>)
    ensures forall i, j | 0 <= i < j < |SortedUnique(s)| :: Less(SortedUnique(s)[i], SortedUnique(s)[j])
    decreases |s|
  {
    if s == {} {
    } else {
      LeastExists(s); LeastIsUnique(s);
      var m :| IsLeast(m, s);
      SortedUniqueIsSorted(s - {m});
      SortedUniqueElements(s - {m});
      var t := SortedUnique(s - {m});
      forall i | 0 <= i < |t| ensures Less(m, t[i]) { assert t[i] in t; }
    }
  }

  /** Recorded reason codes determine the set of reasons they came from. */
  lemma SortedUniqueInjective(a: set<string>, b: set<string>)
    requires SortedUnique(a) == SortedUnique(b)
    ensures a == b
  {
    SortedUniqueElements(a);
    SortedUniqueElements(b);
  }

  /** A reason that applies under a condition. */
  function When(condition: bool, code: string): set<string> { if condition then {code} else {} }

  // ----- canonical text -----

  /** The characters `str.strip()` removes. */
  predicate IsSpace(c: char) {
    || '\t' <= c <= '\r' || '\U{1c}' <= c <= ' ' || c == '\U{85}' || c == '\U{a0}'
    || c == '\U{1680}' || '\U{2000}' <= c <= '\U{200a}' || c == '\U{2028}' || c == '\U{2029}'
    || c == '\U{202f}' || c == '\U{205f}' || c == '\U{3000}'
  }

  /** `value and value == value.strip() and "\x00" not in value`. */
  predicate CanonicalText(s: string) {
    s != [] && !IsSpace(s[0]) && !IsSpace(s[|s| - 1]) && '\0' !in s
  }

  /** `str.lstrip()`, `str.rstrip()` and `str.strip()` */
  function StripLeft(s: string): (r: string)
    ensures |r| <= |s|
  {
    if s != [] && IsSpace(s[0]) then StripLeft(s[1..]) else s
  }

  function StripRight(s: string): (r: string)
    ensures |r| <= |s|
  {
    if s != [] && IsSpace(s[|s| - 1]) then StripRight(s[..|s| - 1]) else s
  }

  function Strip(s: string): string { StripRight(StripLeft(s)) }

  /** Canonical text is text that stripping leaves alone, without the null character. */
  lemma CanonicalMeans(s: string)
    ensures CanonicalText(s) <==> s != "" && Strip(s) == s && '\0' !in s
  {
    hide IsSpace;
  }

  predicate HexDigit(c: char) { '0' <= c <= '9' || 'a' <= c <= 'f' }

  /** `^sha256:[0-9a-f]{64}$` */
  predicate ValidDigest(s: string) {
    |s| == 71 && s[..7] == "sha256:" && forall i | 7 <= i < 71 :: HexDigit(s[i])
  }

  /** A digest is its prefix and sixty-four lower-case hexadecimal digits. */
  lemma DigestMeans(s: string)
    ensures ValidDigest(s) <==>
            exists hex: string :: |hex| == 64 && s == "sha256:" + hex && forall i | 0 <= i < 64 :: HexDigit(hex[i])
  {
    if ValidDigest(s) {
      assert s == "sha256:" + s[7..];
      forall i | 0 <= i < 64 ensures HexDigit(s[7..][i]) { assert s[7..][i] == s[i + 7]; }
    }
    if hex: string :| |hex| == 64 && s == "sha256:" + hex && forall i | 0 <= i < 64 :: HexDigit(hex[i]) {
      forall i | 7 <= i < 71 ensures HexDigit(s[i]) { assert s[i] == hex[i - 7]; }
    }
  }

  const ZERO_DIGEST: string := "sha256:" + seq(64, i => '0')

  /** What `sha256_digest` returns. */
  type Digest = s: string | ValidDigest(s) witness ZERO_DIGEST

  // ----- decimal digits -----

  predicate Digits(s: string) { forall i | 0 <= i < |s| :: '0' <= s[i] <= '9' }

  function DigitValue(c: char): (d: nat)
    requires '0' <= c <= '9'
  {
    c as int - '0' as int
  }

  function DigitChar(d: nat): (c: char)
    requires d < 10
  {
    ('0' as int + d) as char
  }

  /** `str(n)` for a list index. */
  function Decimal(n: nat): string {
    if n < 10 then [DigitChar(n)] else Decimal(n / 10) + [DigitChar(n % 10)]
  }
}
