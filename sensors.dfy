/** The history-duration parameter of the sensor endpoints: `'1h'`, `'30m'`,
    `'7d'` and the like, read into a number of seconds. */
module Sensors {
  import opened Wrappers
  import opened Text

  /** Why a duration is refused (each a `ValueError` in the service). */
  datatype DurationError =
    | EmptyDuration     // nothing left after stripping
    | InvalidNumber     // the part before the unit is not an integer
    | UnknownUnit       // the last character is not h, m or d

  predicate IsUnit(c: char) {
    c == 'h' || c == 'm' || c == 'd'
  }

  /** Minutes per unit, for the unit letters the parser knows. */
  function UnitMinutes(unit: char): nat
    requires IsUnit(unit)
  {
    if unit == 'h' then 60 else if unit == 'm' then 1 else 1440
  }

  /** Seconds per unit: 3600, 60 and 86400. */
  function UnitSeconds(unit: char): (n: int)
    requires IsUnit(unit)
    ensures n > 0
    ensures unit == 'h' ==> n == 3600
    ensures unit == 'm' ==> n == 60
    ensures unit == 'd' ==> n == 86400
  {
    60 * UnitMinutes(unit)
  }

  /** `_parse_duration`: strip, lower-case, then read the text. */
  function ParseDuration(duration: string): (r: Result<int, DurationError>)
    ensures r == Err(EmptyDuration) <==> Strip(duration) == []
  {
    ParseNormalized(Lower(Strip(duration)))
  }

  /** The integer before a final `h`, `m` or `d`, in seconds. Every accepted
      duration is a whole number of minutes; a negative or zero count is
      accepted as written. */
  function ParseNormalized(d: string): (r: Result<int, DurationError>)
    ensures r == Err(EmptyDuration) <==> d == []
    ensures r == Err(UnknownUnit) <==> d != [] && !IsUnit(d[|d| - 1])
    ensures r == Err(InvalidNumber) <==> d != [] && IsUnit(d[|d| - 1]) && PyInt(d[..|d| - 1]).None?
    ensures r.Ok? ==> r.value % 60 == 0
  {
    if d == [] then Err(EmptyDuration)
    else
      var unit, count := d[|d| - 1], d[..|d| - 1];
      if IsUnit(unit) then
        match PyInt(count)
        case Some(n) =>
          WholeMinutes(n, UnitMinutes(unit));
          Ok(n * UnitSeconds(unit))
        case None => Err(InvalidNumber)
      else Err(UnknownUnit)
  }

  lemma WholeMinutes(n: int, k: nat)
    ensures (n * (60 * k)) % 60 == 0
  {
    assert n * (60 * k) == (n * k) * 60;
  }

  /** Surrounding whitespace and letter case do not matter: the parser sees
      the same text for `s` and for its normalised form. */
  lemma ParseDurationNormalizes(s: string)
    ensures ParseDuration(Lower(Strip(s))) == ParseDuration(s)
  {
    var t := Strip(s);
    StripLower(t);
    StripIdempotent(s);
    LowerIdempotent(t);
  }

  /** A count followed by a unit letter is read as that many units. */
  lemma ParseNormalizedCount(count: string, unit: char, n: int)
    requires IsUnit(unit) && PyInt(count) == Some(n)
    ensures ParseNormalized(count + [unit]) == Ok(n * UnitSeconds(unit))
  {
    assert (count + [unit])[..|count|] == count;
  }

  /** A unit letter after a count `int()` refuses is an invalid number. */
  lemma ParseNormalizedBadCount(count: string, unit: char)
    requires IsUnit(unit) && PyInt(count).None?
    ensures ParseNormalized(count + [unit]) == Err(InvalidNumber)
  {
    assert (count + [unit])[..|count|] == count;
  }

  /** Text that is already stripped and lower-case is parsed as it stands. */
  lemma ParseDurationPlain(s: string)
    requires s != [] && !IsSpace(s[0]) && !IsSpace(s[|s| - 1])
    requires forall k :: 0 <= k < |s| ==> !('A' <= s[k] <= 'Z')
    ensures ParseDuration(s) == ParseNormalized(s)
  {
    StripUnpadded(s);
    LowerUnchanged(s);
  }

  /** Lower-casing leaves text without capital letters alone. */
  lemma LowerUnchanged(s: string)
    requires forall k :: 0 <= k < |s| ==> !('A' <= s[k] <= 'Z')
    ensures Lower(s) == s
  {
  }

  /** A run of digits followed by a unit letter is that many units, unless
      the run is too long for `int()`. */
  lemma ParseDurationDigits(digits: string, unit: char)
    requires digits != [] && AllDigits(digits)
    requires IsUnit(unit)
    ensures ParseDuration(digits + [unit])
         == if |digits| <= MaxStrDigits then Ok(DigitsValue(digits) * UnitSeconds(unit)) else Err(InvalidNumber)
  {
    DigitsUnitPlain(digits, unit);
    PyIntDigits(digits);
    if |digits| <= MaxStrDigits {
      ParseNormalizedCount(digits, unit, DigitsValue(digits));
    } else {
      ParseNormalizedBadCount(digits, unit);
    }
  }

  /** Digits and a unit letter are already stripped and lower-case. */
  lemma DigitsUnitPlain(digits: string, unit: char)
    requires digits != [] && AllDigits(digits) && IsUnit(unit)
    ensures ParseDuration(digits + [unit]) == ParseNormalized(digits + [unit])
  {
    var s := digits + [unit];
    assert s[0] == digits[0];
    forall k | 0 <= k < |s| ensures !('A' <= s[k] <= 'Z') {
      if k < |digits| {
        assert s[k] == digits[k];
      }
    }
    ParseDurationPlain(s);
  }

  /** `str(n) + unit` is read back as `n` units, for every integer `n` that
      `str()` renders: so `1h` is 3600 seconds, `24h` 86400 and `7d` 604800. */
  lemma ParseDurationShow(n: int, unit: char)
    requires IsUnit(unit) && StrFits(n)
    ensures ParseDuration(Show(n) + [unit]) == Ok(n * UnitSeconds(unit))
  {
    var shown := Show(n);
    ShowChars(n);
    var s := shown + [unit];
    assert s[0] == shown[0];
    ParseDurationPlain(s);
    PyIntShow(n);
    ParseNormalizedCount(shown, unit, n);
  }

  /** `str(n)` is a sign and digits. */
  lemma ShowChars(n: int)
    ensures Show(n) != []
    ensures forall k :: 0 <= k < |Show(n)| ==> Show(n)[k] == '-' || IsDigit(Show(n)[k])
  {
    var digits := ShowNat(if n < 0 then -n else n);
    if n < 0 {
      forall k | 0 <= k < |Show(n)| ensures Show(n)[k] == '-' || IsDigit(Show(n)[k]) {
        if k > 0 {
          assert Show(n)[k] == digits[k - 1];
        }
      }
    }
  }
}
