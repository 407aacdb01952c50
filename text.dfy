/** The pieces of Python's string handling the irrigation backend relies on:
    `str.strip()`, `str.lower()`, `str.split(sep)` and `int(str)`, together
    with decimal rendering of integers (the inverse of `int`). */
module Text {
  import opened Wrappers

  /** Python's `str.isspace()` for one character: the characters `str.strip()`
      removes when called without an argument. */
  predicate IsSpace(c: char) {
    || c == ' '
    || '\t' <= c <= '\r'
    || '\U{001C}' <= c <= '\U{001F}'
    || c == '\U{0085}' || c == '\U{00A0}' || c == '\U{1680}'
    || '\U{2000}' <= c <= '\U{200A}'
    || c == '\U{2028}' || c == '\U{2029}' || c == '\U{202F}'
    || c == '\U{205F}' || c == '\U{3000}'
  }

  /** Number of whitespace characters at the front of `s`. */
  function LeadingSpaces(s: string): (n: nat)
    ensures n <= |s|
    ensures forall k :: 0 <= k < n ==> IsSpace(s[k])
    ensures n < |s| ==> !IsSpace(s[n])
  {
    if s == [] || !IsSpace(s[0]) then 0 else 1 + LeadingSpaces(s[1..])
  }

  /** Number of whitespace characters at the back of `s`. */
  function TrailingSpaces(s: string): (n: nat)
    ensures n <= |s|
    ensures forall k :: |s| - n <= k < |s| ==> IsSpace(s[k])
    ensures n < |s| ==> !IsSpace(s[|s| - 1 - n])
  {
    if s == [] || !IsSpace(s[|s| - 1]) then 0 else 1 + TrailingSpaces(s[..|s| - 1])
  }

  /** Python's `str.strip()`: `s` without its leading and trailing whitespace. */
  function Strip(s: string): (r: string)
    ensures |r| <= |s|
    ensures r == [] <==> forall k :: 0 <= k < |s| ==> IsSpace(s[k])
    ensures r != [] ==> !IsSpace(r[0]) && !IsSpace(r[|r| - 1])
    ensures LeadingSpaces(s) + |r| <= |s|
    ensures forall k :: 0 <= k < |r| ==> r[k] == s[LeadingSpaces(s) + k]
  {
    var a := LeadingSpaces(s);
    if a == |s| then [] else s[a..|s| - TrailingSpaces(s)]
  }

  /** Stripping a string that neither starts nor ends with whitespace is the identity. */
  lemma StripUnpadded(s: string)
    requires s != [] ==> !IsSpace(s[0]) && !IsSpace(s[|s| - 1])
    ensures Strip(s) == s
  {
    if s != [] {
      assert LeadingSpaces(s) == 0;
      assert TrailingSpaces(s) == 0;
    }
  }

  /** `str.strip()` is idempotent. */
  lemma StripIdempotent(s: string)
    ensures Strip(Strip(s)) == Strip(s)
  {
    StripUnpadded(Strip(s));
  }

  /** Python's `str.lower()` on one character (ASCII letters only). */
  function LowerChar(c: char): char {
    if 'A' <= c <= 'Z' then (c as int + 32) as char else c
  }

  /** Python's `str.lower()`, character by character. */
  function Lower(s: string): (r: string)
    ensures |r| == |s|
    ensures forall k :: 0 <= k < |s| ==> r[k] == LowerChar(s[k])
  {
    if s == [] then [] else [LowerChar(s[0])] + Lower(s[1..])
  }

  /** Lower-casing does not turn a character into whitespace or out of it,
      so stripping and lower-casing commute. */
  lemma StripLower(s: string)
    ensures Strip(Lower(s)) == Lower(Strip(s))
  {
    var l := Lower(s);
    LowerSameSpaces(s);
    SameSpacesCounts(s, l);
    var a, b := LeadingSpaces(s), TrailingSpaces(s);
    if a < |s| {
      LowerSlice(s, a, |s| - b);
    }
  }

  /** `l` has whitespace exactly where `s` has. */
  predicate SameSpaces(s: string, l: string) {
    |l| == |s| && forall k :: 0 <= k < |s| ==> (IsSpace(l[k]) <==> IsSpace(s[k]))
  }

  lemma LowerSameSpaces(s: string)
    ensures SameSpaces(s, Lower(s))
  {
    var l := Lower(s);
    forall k | 0 <= k < |s|
      ensures IsSpace(l[k]) == IsSpace(s[k])
    {
      LowerCharSpace(s[k]);
    }
  }

  lemma SameSpacesCounts(s: string, l: string)
    requires SameSpaces(s, l)
    ensures LeadingSpaces(l) == LeadingSpaces(s) && TrailingSpaces(l) == TrailingSpaces(s)
  {
    LeadingSpacesLower(s, l);
    TrailingSpacesLower(s, l);
  }

  lemma LowerCharSpace(c: char)
    ensures IsSpace(LowerChar(c)) == IsSpace(c)
  {
  }

  lemma {:induction false} LowerSlice(s: string, i: nat, j: nat)
    requires i <= j <= |s|
    ensures Lower(s[i..j]) == Lower(s)[i..j]
  {
    var l, m := Lower(s), Lower(s[i..j]);
    forall k | 0 <= k < j - i
      ensures m[k] == l[i + k]
    {
      assert s[i..j][k] == s[i + k];
    }
  }

  lemma {:induction false} LeadingSpacesLower(s: string, l: string)
    requires SameSpaces(s, l)
    ensures LeadingSpaces(l) == LeadingSpaces(s)
  {
    if s != [] && IsSpace(s[0]) {
      LeadingSpacesLower(s[1..], l[1..]);
    }
  }

  lemma {:induction false} TrailingSpacesLower(s: string, l: string)
    requires SameSpaces(s, l)
    ensures TrailingSpaces(l) == TrailingSpaces(s)
  {
    if s != [] && IsSpace(s[|s| - 1]) {
      TrailingSpacesLower(s[..|s| - 1], l[..|l| - 1]);
    }
  }

  /** Lower-casing is idempotent. */
  lemma LowerIdempotent(s: string)
    ensures Lower(Lower(s)) == Lower(s)
  {
  }

  /** Python's `str.split(sep)` for a one-character separator: the pieces between
      separators, always at least one (possibly empty). */
  function Split(s: string, sep: char): (parts: seq<string>)
    ensures |parts| >= 1
    ensures forall i :: 0 <= i < |parts| ==> sep !in parts[i]
  {
    if s == [] then [[]]
    else
      var rest := Split(s[1..], sep);
      if s[0] == sep then [[]] + rest else [[s[0]] + rest[0]] + rest[1..]
  }

  /** Python's `sep.join(parts)`. */
  function Join(parts: seq<string>, sep: char): string {
    if parts == [] then []
    else if |parts| == 1 then parts[0]
    else parts[0] + [sep] + Join(parts[1..], sep)
  }

  /** Joining the pieces of a split gives the original text back. */
  lemma {:induction false} JoinSplit(s: string, sep: char)
    ensures Join(Split(s, sep), sep) == s
  {
    if s != [] {
      var rest := Split(s[1..], sep);
      JoinSplit(s[1..], sep);
      if s[0] == sep {
        assert Split(s, sep) == [[]] + rest;
        assert Join([[]] + rest, sep) == [] + [sep] + Join(rest, sep);
      } else {
        var parts := [[s[0]] + rest[0]] + rest[1..];
        assert Split(s, sep) == parts;
        if |rest| == 1 {
          assert Join(parts, sep) == [s[0]] + rest[0];
        } else {
          assert Join(rest, sep) == rest[0] + [sep] + Join(rest[1..], sep);
          assert Join(parts, sep) == [s[0]] + rest[0] + [sep] + Join(rest[1..], sep);
        }
      }
    }
  }

  /** Splitting text that does not contain the separator yields the text itself. */
  lemma {:induction false} SplitNoSeparator(s: string, sep: char)
    requires sep !in s
    ensures Split(s, sep) == [s]
  {
    if s != [] {
      SplitNoSeparator(s[1..], sep);
      assert [s[0]] + s[1..] == s;
    }
  }

  /** Splitting `p + sep + rest` splits off exactly `p` when `p` has no separator. */
  lemma {:induction false} SplitAtSeparator(p: string, sep: char, rest: string)
    requires sep !in p
    ensures Split(p + [sep] + rest, sep) == [p] + Split(rest, sep)
  {
    if p == [] {
      assert [] + [sep] + rest == [sep] + rest;
      assert ([sep] + rest)[1..] == rest;
    } else {
      SplitAtSeparator(p[1..], sep, rest);
      assert (p + [sep] + rest)[1..] == p[1..] + [sep] + rest;
      assert [p[0]] + p[1..] == p;
    }
  }

  /** Splitting a join gives the pieces back when no piece contains the separator. */
  lemma {:induction false} SplitJoin(parts: seq<string>, sep: char)
    requires |parts| >= 1
    requires forall i :: 0 <= i < |parts| ==> sep !in parts[i]
    ensures Split(Join(parts, sep), sep) == parts
  {
    if |parts| == 1 {
      SplitNoSeparator(parts[0], sep);
    } else {
      SplitJoin(parts[1..], sep);
      SplitAtSeparator(parts[0], sep, Join(parts[1..], sep));
      assert [parts[0]] + parts[1..] == parts;
    }
  }

  predicate IsDigit(c: char) {
    '0' <= c <= '9'
  }

  predicate AllDigits(s: string) {
    forall k :: 0 <= k < |s| ==> IsDigit(s[k])
  }

  function DigitValue(c: char): nat
    requires IsDigit(c)
  {
    c as int - '0' as int
  }

  function Pow10(n: nat): (p: nat)
    ensures p >= 1
  {
    if n == 0 then 1 else 10 * Pow10(n - 1)
  }

  /** The value of a run of decimal digits (Python's `int` on such a run). */
  function DigitsValue(s: string): (n: nat)
    requires AllDigits(s)
    ensures n < Pow10(|s|)
  {
    if s == [] then 0 else 10 * DigitsValue(s[..|s| - 1]) + DigitValue(s[|s| - 1])
  }

  /** The value of a two-digit run. */
  lemma TwoDigits(s: string)
    requires |s| == 2
    ensures AllDigits(s) ==> DigitsValue(s) == 10 * DigitValue(s[0]) + DigitValue(s[1])
  {
    if AllDigits(s) {
      assert s[..1][..0] == [];
    }
  }

  function DigitChar(d: nat): (c: char)
    requires d < 10
    ensures IsDigit(c) && DigitValue(c) == d
  {
    ('0' as int + d) as char
  }

  /** Decimal rendering of a natural number, without leading zeros. */
  function ShowNat(n: nat): (s: string)
    ensures |s| >= 1 && AllDigits(s)
    ensures DigitsValue(s) == n
    ensures |s| > 1 ==> s[0] != '0'
  {
    if n < 10 then [DigitChar(n)]
    else
      var init := ShowNat(n / 10);
      var s := init + [DigitChar(n % 10)];
      assert s[..|s| - 1] == init;
      s
  }

  /** Decimal rendering of an integer, as Python's `str(n)` writes it. */
  function Show(n: int): string {
    if n < 0 then "-" + ShowNat(-n) else ShowNat(n)
  }

  /** The digit body Python's `int()` accepts after the optional sign: decimal
      digits, with single underscores allowed between two digits. */
  predicate IntBody(b: string) {
    && |b| >= 1
    && IsDigit(b[0]) && IsDigit(b[|b| - 1])
    && (forall k :: 0 <= k < |b| ==> IsDigit(b[k]) || b[k] == '_')
    && NoDoubleUnderscore(b)
  }

  predicate NoDoubleUnderscore(b: string) {
    |b| < 2 || (!(b[0] == '_' && b[1] == '_') && NoDoubleUnderscore(b[1..]))
  }

  lemma {:induction false} DigitsHaveNoUnderscores(b: string)
    requires AllDigits(b)
    ensures NoDoubleUnderscore(b)
  {
    if |b| >= 2 {
      DigitsHaveNoUnderscores(b[1..]);
    }
  }

  function WithoutUnderscores(b: string): (r: string)
    requires forall k :: 0 <= k < |b| ==> IsDigit(b[k]) || b[k] == '_'
    ensures AllDigits(r)
    ensures AllDigits(b) ==> r == b
  {
    if b == [] then []
    else (if b[0] == '_' then [] else [b[0]]) + WithoutUnderscores(b[1..])
  }

  /** CPython's default `sys.int_info.default_max_str_digits`: `int()` of a
      decimal text with more digits than this, and `str()` of an integer
      with more digits than this, raise `ValueError`. */
  const MaxStrDigits: nat := 4300

  /** An optionally signed integer literal with no surrounding whitespace,
      of at most `MaxStrDigits` digits (underscores not counted). */
  function IntLiteral(t: string): Option<int> {
    if t == [] then None
    else
      var body := if t[0] == '-' || t[0] == '+' then t[1..] else t;
      if IntBody(body) then
        var digits := WithoutUnderscores(body);
        if |digits| > MaxStrDigits then None
        else
          var v: int := DigitsValue(digits);
          Some(if t[0] == '-' then -v else v)
      else None
  }

  /** `str(n)` does not raise: `n` has at most `MaxStrDigits` digits. */
  predicate StrFits(n: int) {
    |ShowNat(if n < 0 then -n else n)| <= MaxStrDigits
  }

  /** Python's `int(s)` in base 10: surrounding whitespace is ignored and the
      rest must be an `IntLiteral`; anything else raises `ValueError`,
      modelled as `None`. */
  function PyInt(s: string): Option<int> {
    IntLiteral(Strip(s))
  }

  /** A decimal rendering is an integer literal of the value it renders. */
  lemma IntLiteralShow(n: int)
    requires StrFits(n)
    ensures IntLiteral(Show(n)) == Some(n)
  {
    var m: nat := if n < 0 then -n else n;
    var digits := ShowNat(m);
    DigitsHaveNoUnderscores(digits);
    assert IntBody(digits);
    if n < 0 {
      assert Show(n)[1..] == digits;
    }
  }

  /** `int(str(n)) == n`: the decimal rendering is read back unchanged,
      for every integer `str()` can render. */
  lemma PyIntShow(n: int)
    requires StrFits(n)
    ensures PyInt(Show(n)) == Some(n)
  {
    ShowUnpadded(n);
    StripUnpadded(Show(n));
    IntLiteralShow(n);
  }

  /** `str(n)` has no surrounding whitespace. */
  lemma ShowUnpadded(n: int)
    ensures Show(n) != [] && !IsSpace(Show(n)[0]) && !IsSpace(Show(n)[|Show(n)| - 1])
  {
    var digits := ShowNat(if n < 0 then -n else n);
    assert IsDigit(digits[|digits| - 1]);
    if n >= 0 {
      assert IsDigit(digits[0]);
    }
  }

  /** `int()` of a plain run of decimal digits is its value, and raises when
      the run is longer than `MaxStrDigits`. */
  lemma PyIntDigits(s: string)
    requires s != [] && AllDigits(s)
    ensures PyInt(s) == if |s| <= MaxStrDigits then Some(DigitsValue(s)) else None
  {
    assert IsDigit(s[0]) && IsDigit(s[|s| - 1]);
    StripUnpadded(s);
    IntLiteralDigits(s);
  }

  lemma IntLiteralDigits(s: string)
    requires s != [] && AllDigits(s)
    ensures IntLiteral(s) == if |s| <= MaxStrDigits then Some(DigitsValue(s)) else None
  {
    DigitsHaveNoUnderscores(s);
    assert IsDigit(s[0]) && IsDigit(s[|s| - 1]);
    assert IntBody(s);
    assert s[0] != '-' && s[0] != '+';
    assert WithoutUnderscores(s) == s;
  }

  /** `int()` ignores surrounding whitespace. */
  lemma PyIntStrip(s: string)
    ensures PyInt(Strip(s)) == PyInt(s)
  {
    StripIdempotent(s);
  }
}
