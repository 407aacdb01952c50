/** Wall-clock arithmetic shared by the scheduler, the calculator and the
    routers. A datetime is an integer number of microseconds counted from
    midnight of some fixed day, so `t / MicrosPerDay` is its date and
    `t % MicrosPerDay` its time of day; a `datetime.time` is a `TimeOfDay`. */
module Clock {
  import opened Wrappers
  import opened Text

  const MicrosPerSecond: int := 1_000_000
  const MicrosPerMinute: int := 60_000_000
  const MicrosPerHour: int := 3_600_000_000
  const MicrosPerDay: int := 86_400_000_000

  /** A `datetime.time`: microseconds after midnight. */
  type TimeOfDay = t: int | 0 <= t < 86_400_000_000

  /** Midnight of the day `t` falls on (`datetime.combine(t.date(), time())`). */
  function DayStart(t: int): (d: int)
    ensures d <= t < d + MicrosPerDay
    ensures d % MicrosPerDay == 0
  {
    (t / MicrosPerDay) * MicrosPerDay
  }

  /** The midnight before `t` is the only midnight within a day before `t`. */
  lemma DayStartUnique(d: int, t: int)
    requires d % MicrosPerDay == 0 && d <= t < d + MicrosPerDay
    ensures DayStart(t) == d
  {
    var q := d / MicrosPerDay;
    assert d == q * MicrosPerDay;
    assert t / MicrosPerDay == q;
  }

  /** `datetime.combine(t.date(), tod)`: time of day `tod` on the date of `t`. */
  function Combine(t: int, tod: TimeOfDay): (r: int)
    ensures DayStart(r) == DayStart(t)
    ensures r - DayStart(r) == tod
  {
    var r := DayStart(t) + tod;
    DayStartUnique(DayStart(t), r);
    r
  }

  /** Adding `timedelta(days=1)` moves the date forward by exactly one day. */
  lemma NextDay(t: int)
    ensures DayStart(t + MicrosPerDay) == DayStart(t) + MicrosPerDay
  {
    DayStartUnique(DayStart(t) + MicrosPerDay, t + MicrosPerDay);
  }

  /** One numeric field of `strptime`'s `%H`, `%M` or `%S`: one or two decimal
      digits whose value is at most `max`. */
  function TimeField(s: string, max: nat): Option<nat> {
    if 1 <= |s| <= 2 && AllDigits(s) && DigitsValue(s) <= max then Some(DigitsValue(s)) else None
  }

  /** The alternatives `strptime` tries for `%H`: `2[0-3]|[0-1]\d|\d`. */
  predicate HourText(s: string) {
    || (|s| == 2 && s[0] == '2' && '0' <= s[1] <= '3')
    || (|s| == 2 && '0' <= s[0] <= '1' && IsDigit(s[1]))
    || (|s| == 1 && IsDigit(s[0]))
  }

  /** The alternatives `strptime` tries for `%M`: `[0-5]\d|\d`. */
  predicate MinuteText(s: string) {
    || (|s| == 2 && '0' <= s[0] <= '5' && IsDigit(s[1]))
    || (|s| == 1 && IsDigit(s[0]))
  }

  /** The alternatives `strptime` tries for `%S`: `6[0-1]|[0-5]\d|\d`. The
      leap seconds 60 and 61 pass the pattern and are then refused by the
      `datetime` constructor. */
  predicate SecondText(s: string) {
    || (|s| == 2 && s[0] == '6' && '0' <= s[1] <= '1')
    || MinuteText(s)
  }

  /** The value of a one- or two-digit run, digit by digit. */
  lemma ShortDigits(s: string)
    requires 1 <= |s| <= 2 && AllDigits(s)
    ensures |s| == 1 ==> DigitsValue(s) == DigitValue(s[0])
    ensures |s| == 2 ==> DigitsValue(s) == 10 * DigitValue(s[0]) + DigitValue(s[1])
  {
    if |s| == 1 {
      assert s[..0] == [];
    } else {
      TwoDigits(s);
    }
  }

  /** An `%H` field is read exactly when it matches one of strptime's hour
      alternatives, and then as its decimal value. */
  lemma HourField(s: string, v: nat)
    ensures TimeField(s, 23) == Some(v) <==> HourText(s) && v == DigitsValue(s)
  {
    if 1 <= |s| <= 2 && AllDigits(s) {
      ShortDigits(s);
    }
  }

  /** An `%M` field is read exactly when it matches one of strptime's minute
      alternatives, and then as its decimal value. */
  lemma MinuteField(s: string, v: nat)
    ensures TimeField(s, 59) == Some(v) <==> MinuteText(s) && v == DigitsValue(s)
  {
    if 1 <= |s| <= 2 && AllDigits(s) {
      ShortDigits(s);
    }
  }

  /** An `%S` field is read exactly when it matches one of strptime's second
      alternatives and is not a leap second, and then as its decimal value. */
  lemma SecondField(s: string, v: nat)
    ensures TimeField(s, 59) == Some(v) <==> SecondText(s) && DigitsValue(s) <= 59 && v == DigitsValue(s)
  {
    if 1 <= |s| <= 2 && AllDigits(s) {
      ShortDigits(s);
    }
  }

  /** `datetime.strptime(s, "%H:%M").time()`; `None` where it raises `ValueError`. */
  function ParseHM(s: string): (r: Option<TimeOfDay>)
    ensures r.Some? ==> r.value % MicrosPerMinute == 0
  {
    var parts := Split(s, ':');
    if |parts| != 2 then None
    else
      match (TimeField(parts[0], 23), TimeField(parts[1], 59))
      case (Some(h), Some(m)) => Some(h * MicrosPerHour + m * MicrosPerMinute)
      case _ => None
  }

  /** `datetime.strptime(s, "%H:%M:%S").time()`; `None` where it raises `ValueError`. */
  function ParseHMS(s: string): (r: Option<TimeOfDay>)
    ensures r.Some? ==> r.value % MicrosPerSecond == 0
  {
    var parts := Split(s, ':');
    if |parts| != 3 then None
    else
      match (TimeField(parts[0], 23), TimeField(parts[1], 59), TimeField(parts[2], 59))
      case (Some(h), Some(m), Some(sec)) =>
        Some(h * MicrosPerHour + m * MicrosPerMinute + sec * MicrosPerSecond)
      case _ => None
  }

  /** Two-digit zero-padded rendering, as `strftime` writes `%H`, `%M`, `%S`. */
  function Pad2(n: nat): (s: string)
    requires n < 100
    ensures |s| == 2 && AllDigits(s) && DigitsValue(s) == n
  {
    var s := [DigitChar(n / 10), DigitChar(n % 10)];
    assert s[..1] == [DigitChar(n / 10)];
    s
  }

  /** `strftime("%H:%M")` is read back by `strptime(…, "%H:%M")`. */
  lemma ParseHMFormat(h: nat, m: nat)
    requires h <= 23 && m <= 59
    ensures ParseHM(Pad2(h) + ":" + Pad2(m)) == Some(h * MicrosPerHour + m * MicrosPerMinute)
  {
    var hs, ms := Pad2(h), Pad2(m);
    SplitAtSeparator(hs, ':', ms);
    assert hs + ":" + ms == hs + [':'] + ms;
    SplitNoSeparator(ms, ':');
  }

  /** `strftime("%H:%M:%S")` is read back by `strptime(…, "%H:%M:%S")`. */
  lemma ParseHMSFormat(h: nat, m: nat, sec: nat)
    requires h <= 23 && m <= 59 && sec <= 59
    ensures ParseHMS(Pad2(h) + ":" + Pad2(m) + ":" + Pad2(sec))
         == Some(h * MicrosPerHour + m * MicrosPerMinute + sec * MicrosPerSecond)
  {
    var hs, ms, ss := Pad2(h), Pad2(m), Pad2(sec);
    SplitAtSeparator(hs, ':', ms + ":" + ss);
    assert hs + ":" + ms + ":" + ss == hs + [':'] + (ms + ":" + ss);
    SplitAtSeparator(ms, ':', ss);
    assert ms + ":" + ss == ms + [':'] + ss;
    SplitNoSeparator(ss, ':');
  }

  /** A time with seconds is never accepted by the `%H:%M` format, so the
      scheduler's fallback from `%H:%M:%S` to `%H:%M` is only taken for
      texts with exactly one colon. */
  lemma FormatsDisjoint(s: string)
    ensures ParseHM(s).Some? ==> ParseHMS(s).None?
  {
  }
}
