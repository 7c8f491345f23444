/**
 * Text primitives the backend relies on: Python's rendering of an `int` with
 * `str()`/f-strings, the code-point order of strings, and Python's
 * `str.strip()` and `str.capitalize()`.
 */
module Text {

  // ---------------------------------------------------------------------------
  // Decimal rendering of natural numbers
  // ---------------------------------------------------------------------------

  predicate IsDigit(c: char) {
    '0' <= c <= '9'
  }

  predicate AllDigits(s: string) {
    forall i :: 0 <= i < |s| ==> IsDigit(s[i])
  }

  function DigitValue(c: char): (d: nat)
    requires IsDigit(c)
    ensures d < 10
  {
    c as int - '0' as int
  }

  function DigitChar(d: nat): (c: char)
    requires d < 10
    ensures IsDigit(c) && DigitValue(c) == d
  {
    ('0' as int + d) as char
  }

  /** How Python renders a non-negative `int`: decimal digits, no sign, no leading zero. */
  function Decimal(n: nat): (s: string)
    ensures |s| >= 1 && AllDigits(s)
    ensures n == 0 ==> s == "0"
    ensures s[0] == '0' <==> n == 0
  {
    if n < 10 then [DigitChar(n)] else Decimal(n / 10) + [DigitChar(n % 10)]
  }

  /** Reads a string of decimal digits back as a number. */
  function ParseDecimal(s: string): nat
    requires AllDigits(s)
  {
    if s == [] then 0 else ParseDecimal(s[..|s| - 1]) * 10 + DigitValue(s[|s| - 1])
  }

  /** Rendering can be read back: `int(str(n)) == n`. */
  lemma {:induction false} ParseDecimalOfDecimal(n: nat)
    ensures ParseDecimal(Decimal(n)) == n
  {
    var s := Decimal(n);
    if n >= 10 {
      assert s[..|s| - 1] == Decimal(n / 10);
      ParseDecimalOfDecimal(n / 10);
    }
  }

  /** The longest run of digits at the start of `s`. */
  function LeadingDigits(s: string): (d: string)
    ensures d <= s && AllDigits(d)
    ensures |d| == |s| || !IsDigit(s[|d|])
  {
    if s == [] || !IsDigit(s[0]) then [] else [s[0]] + LeadingDigits(s[1..])
  }

  lemma {:induction false} LeadingDigitsOfConcat(d: string, rest: string)
    requires AllDigits(d)
    requires rest == [] || !IsDigit(rest[0])
    ensures LeadingDigits(d + rest) == d
  {
    if d != [] {
      assert (d + rest)[1..] == d[1..] + rest;
      LeadingDigitsOfConcat(d[1..], rest);
    }
  }

  /** The longest run of digits at the end of `s`. */
  function TrailingDigits(s: string): (d: string)
    ensures |d| <= |s| && d == s[|s| - |d|..] && AllDigits(d)
    ensures |d| == |s| || !IsDigit(s[|s| - |d| - 1])
  {
    if s == [] || !IsDigit(s[|s| - 1]) then []
    else TrailingDigits(s[..|s| - 1]) + [s[|s| - 1]]
  }

  lemma {:induction false} TrailingDigitsOfConcat(front: string, d: string)
    requires AllDigits(d)
    requires front == [] || !IsDigit(front[|front| - 1])
    ensures TrailingDigits(front + d) == d
  {
    if d != [] {
      assert (front + d)[..|front + d| - 1] == front + d[..|d| - 1];
      TrailingDigitsOfConcat(front, d[..|d| - 1]);
    }
  }

  // ---------------------------------------------------------------------------
  // Code-point (lexicographic) order of strings
  // ---------------------------------------------------------------------------

  /** `a` sorts strictly before `b` when comparing character codes from the left. */
  predicate LexLess(a: string, b: string) {
    if a == [] then b != []
    else if b == [] then false
    else if a[0] != b[0] then a[0] < b[0]
    else LexLess(a[1..], b[1..])
  }

  lemma {:induction false} LexLessIrreflexive(a: string)
    ensures !LexLess(a, a)
  {
    if a != [] {
      LexLessIrreflexive(a[1..]);
    }
  }

  lemma {:induction false} LexLessAsymmetric(a: string, b: string)
    requires LexLess(a, b)
    ensures !LexLess(b, a)
  {
    if a != [] && b != [] && a[0] == b[0] {
      LexLessAsymmetric(a[1..], b[1..]);
    }
  }

  lemma {:induction false} LexLessTransitive(a: string, b: string, c: string)
    requires LexLess(a, b) && LexLess(b, c)
    ensures LexLess(a, c)
  {
    if a != [] && b != [] && c != [] && a[0] == b[0] && b[0] == c[0] {
      LexLessTransitive(a[1..], b[1..], c[1..]);
    }
  }

  lemma {:induction false} LexLessTotal(a: string, b: string)
    ensures a == b || LexLess(a, b) || LexLess(b, a)
  {
    if a != [] && b != [] && a[0] == b[0] {
      LexLessTotal(a[1..], b[1..]);
      if a[1..] == b[1..] {
        assert a == [a[0]] + a[1..] && b == [b[0]] + b[1..];
      }
    }
  }

  // ---------------------------------------------------------------------------
  // Python's str.strip() and str.capitalize()
  // ---------------------------------------------------------------------------

  /** The characters for which Python's `str.isspace()` holds. */
  predicate IsSpace(c: char) {
    || '\t' <= c <= '\r'
    || '\U{1C}' <= c <= ' '
    || c == '\U{85}' || c == '\U{A0}' || c == '\U{1680}'
    || '\U{2000}' <= c <= '\U{200A}'
    || c == '\U{2028}' || c == '\U{2029}' || c == '\U{202F}' || c == '\U{205F}' || c == '\U{3000}'
  }

  /** `s` without its leading whitespace. */
  function StripLeading(s: string): (r: string)
    ensures |r| <= |s| && r == s[|s| - |r|..]
    ensures r == [] || !IsSpace(r[0])
  {
    if s != [] && IsSpace(s[0]) then StripLeading(s[1..]) else s
  }

  /** Everything `StripLeading` removes is whitespace. */
  lemma {:induction false} StripLeadingDropsOnlySpace(s: string)
    ensures forall i :: 0 <= i < |s| - |StripLeading(s)| ==> IsSpace(s[i])
  {
    if s != [] && IsSpace(s[0]) {
      StripLeadingDropsOnlySpace(s[1..]);
      forall i | 1 <= i < |s| - |StripLeading(s)| ensures IsSpace(s[i]) {
        assert s[i] == s[1..][i - 1];
      }
    }
  }

  /** `s` without its trailing whitespace. */
  function StripTrailing(s: string): (r: string)
    ensures r <= s
    ensures r == [] || !IsSpace(r[|r| - 1])
  {
    if s != [] && IsSpace(s[|s| - 1]) then StripTrailing(s[..|s| - 1]) else s
  }

  /** Everything `StripTrailing` removes is whitespace. */
  lemma {:induction false} StripTrailingDropsOnlySpace(s: string)
    ensures forall i :: |StripTrailing(s)| <= i < |s| ==> IsSpace(s[i])
  {
    if s != [] && IsSpace(s[|s| - 1]) {
      StripTrailingDropsOnlySpace(s[..|s| - 1]);
      forall i | |StripTrailing(s)| <= i < |s| - 1 ensures IsSpace(s[i]) {
        assert s[i] == s[..|s| - 1][i];
      }
    }
  }

  /** Python's `s.strip()`: whitespace removed from both ends, the inside kept. */
  function Strip(s: string): (r: string)
    ensures r == [] || (!IsSpace(r[0]) && !IsSpace(r[|r| - 1]))
  {
    StripTrailing(StripLeading(s))
  }

  /** `r` is the slice of `s` at `start`, and only whitespace lies outside it. */
  predicate IsTrimmedSlice(s: string, start: int, r: string) {
    && 0 <= start && start + |r| <= |s|
    && r == s[start..start + |r|]
    && (forall i :: 0 <= i < start ==> IsSpace(s[i]))
    && (forall i :: start + |r| <= i < |s| ==> IsSpace(s[i]))
  }

  /**
   * A prefix `r` of a suffix `l` of `s` is a slice of `s`; when whitespace
   * alone precedes `l` in `s` and follows `r` in `l`, whitespace alone lies
   * outside that slice.
   */
  lemma PrefixOfSuffixIsTrimmedSlice(s: string, l: string, r: string)
    requires |l| <= |s| && l == s[|s| - |l|..] && r <= l
    requires forall i :: 0 <= i < |s| - |l| ==> IsSpace(s[i])
    requires forall i :: |r| <= i < |l| ==> IsSpace(l[i])
    ensures IsTrimmedSlice(s, |s| - |l|, r)
  {
    assert r == l[..|r|];
    forall i | |s| - |l| + |r| <= i < |s| ensures IsSpace(s[i]) {
      assert s[i] == l[i - (|s| - |l|)];
    }
  }

  /**
   * `strip()` removes exactly the whitespace at both ends: the result is the
   * slice of the input that starts after its leading whitespace, and only
   * whitespace comes before and after that slice.
   */
  lemma {:induction false} StripRemovesOnlyOuterSpace(s: string)
    ensures IsTrimmedSlice(s, |s| - |StripLeading(s)|, Strip(s))
  {
    assert Strip(s) == StripTrailing(StripLeading(s));
    StripLeadingDropsOnlySpace(s);
    StripTrailingDropsOnlySpace(StripLeading(s));
    PrefixOfSuffixIsTrimmedSlice(s, StripLeading(s), Strip(s));
  }

  /** Python's `c.upper()` for an ASCII letter; other characters are kept. */
  function UpperChar(c: char): char {
    if 'a' <= c <= 'z' then (c as int - 32) as char else c
  }

  /** Python's `c.lower()` for an ASCII letter; other characters are kept. */
  function LowerChar(c: char): char {
    if 'A' <= c <= 'Z' then (c as int + 32) as char else c
  }

  function LowerAll(s: string): (r: string)
    ensures |r| == |s|
    ensures forall i :: 0 <= i < |s| ==> r[i] == LowerChar(s[i])
  {
    if s == [] then [] else [LowerChar(s[0])] + LowerAll(s[1..])
  }

  /** Python's `s.capitalize()`: the first character upper-cased, the rest lower-cased. */
  function Capitalize(s: string): (r: string)
    ensures |r| == |s|
    ensures s != [] ==> r[0] == UpperChar(s[0])
    ensures forall i :: 1 <= i < |s| ==> r[i] == LowerChar(s[i])
  {
    if s == [] then [] else [UpperChar(s[0])] + LowerAll(s[1..])
  }

  /** Changing the case of a character never makes or unmakes whitespace. */
  lemma CaseKeepsSpace(c: char)
    ensures IsSpace(UpperChar(c)) == IsSpace(c)
    ensures IsSpace(LowerChar(c)) == IsSpace(c)
  {
  }

  /** Capitalising twice is capitalising once. */
  lemma CapitalizeIsIdempotent(s: string)
    ensures Capitalize(Capitalize(s)) == Capitalize(s)
  {
    var c := Capitalize(s);
    var cc := Capitalize(c);
    forall i | 0 <= i < |s| ensures cc[i] == c[i] {
      if i == 0 {
        assert cc[0] == UpperChar(UpperChar(s[0]));
      } else {
        assert cc[i] == LowerChar(LowerChar(s[i]));
      }
    }
  }

  /** Capitalising a stripped string leaves nothing more to strip, and capitalising twice changes nothing. */
  lemma CapitalizeStrippedIsFixedPoint(s: string)
    requires s == Strip(s)
    ensures Strip(Capitalize(s)) == Capitalize(s)
    ensures Capitalize(Capitalize(s)) == Capitalize(s)
  {
    var c := Capitalize(s);
    if c != [] {
      assert !IsSpace(c[0]) && !IsSpace(c[|c| - 1]) by {
        assert !IsSpace(s[0]) && !IsSpace(s[|s| - 1]);
        CaseKeepsSpace(s[0]);
        CaseKeepsSpace(s[|s| - 1]);
      }
      assert StripLeading(c) == c;
      assert StripTrailing(c) == c;
    }
    assert Strip(c) == StripTrailing(StripLeading(c));
    CapitalizeIsIdempotent(s);
  }

  lemma StripIsIdempotent(s: string)
    ensures Strip(Strip(s)) == Strip(s)
  {
    var r := Strip(s);
    assert StripLeading(r) == r;
    assert StripTrailing(r) == r;
  }
}
