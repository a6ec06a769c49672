/** Dates, and UTC timestamps with their JSON text form. */
module Calendar {
  import opened Wrappers

  predicate IsLeapYear(year: int) {
    year % 4 == 0 && (year % 100 != 0 || year % 400 == 0)
  }

  function DaysInMonth(year: int, month: int): (days: int)
    ensures 28 <= days <= 31
  {
    if month == 2 then (if IsLeapYear(year) then 29 else 28)
    else if month in {4, 6, 9, 11} then 30
    else 31
  }

  datatype Date = Date(year: int, month: int, day: int) {
    predicate Valid() {
      1 <= year <= 9999 && 1 <= month <= 12 && 1 <= day <= DaysInMonth(year, month)
    }
  }

  /** A UTC timestamp in whole seconds, the precision of Telegram message dates. */
  datatype Timestamp = Timestamp(date: Date, hour: int, minute: int, second: int) {
    predicate Valid() {
      date.Valid() && 0 <= hour < 24 && 0 <= minute < 60 && 0 <= second < 60
    }
  }

  type DateTime = t: Timestamp | t.Valid() witness Timestamp(Date(1970, 1, 1), 0, 0, 0)

  // ----- Fixed-width decimal numbers -----

  function Digit(d: int): char
    requires 0 <= d < 10
  {
    "0123456789"[d]
  }

  function DigitValue(c: char): Option<int> {
    if '0' <= c <= '9' then Some(c as int - '0' as int) else None
  }

  lemma DigitRoundTrip(d: int)
    requires 0 <= d < 10
    ensures DigitValue(Digit(d)) == Some(d)
  {
  }

  function Pow10(width: nat): (p: int)
    ensures p >= 1
  {
    if width == 0 then 1 else 10 * Pow10(width - 1)
  }

  function Padded(n: int, width: nat): (s: string)
    requires 0 <= n < Pow10(width)
    ensures |s| == width
  {
    if width == 0 then "" else Padded(n / 10, width - 1) + [Digit(n % 10)]
  }

  function ParseDigits(s: string): Option<int> {
    if s == "" then Some(0)
    else
      var high, low := ParseDigits(s[..|s| - 1]), DigitValue(s[|s| - 1]);
      if high.Some? && low.Some? then Some(10 * high.value + low.value) else None
  }

  lemma DigitsGrow(s: string, high: int, d: int)
    requires ParseDigits(s) == Some(high) && 0 <= d < 10
    ensures ParseDigits(s + [Digit(d)]) == Some(10 * high + d)
  {
    var t := s + [Digit(d)];
    assert t[..|t| - 1] == s && t[|t| - 1] == Digit(d);
    DigitRoundTrip(d);
  }

  lemma TenthFits(n: int, p: int)
    requires 0 <= n < 10 * p
    ensures 0 <= n / 10 < p && 0 <= n % 10 < 10 && n == 10 * (n / 10) + n % 10
  {
  }

  lemma {:induction false} PaddedRoundTrip(n: int, width: nat)
    requires 0 <= n < Pow10(width)
    ensures ParseDigits(Padded(n, width)) == Some(n)
  {
    if width > 0 {
      TenthFits(n, Pow10(width - 1));
      PaddedRoundTrip(n / 10, width - 1);
      DigitsGrow(Padded(n / 10, width - 1), n / 10, n % 10);
    }
  }

  /** Where three separated fields lie in their concatenation. */
  lemma FieldSlices(a: string, b: string, c: string, sep: char)
    ensures var s, i, j := a + [sep] + b + [sep] + c, |a| + 1, |a| + |b| + 2;
            s[..|a|] == a && s[|a|] == sep && s[i..i + |b|] == b && s[j - 1] == sep && s[j..j + |c|] == c
  {
  }

  // ----- ISO 8601 in UTC: YYYY-MM-DDTHH:MM:SSZ -----

  function FormatDate(d: Date): (s: string)
    requires d.Valid()
    ensures |s| == 10
  {
    assert Pow10(4) == 10000 && Pow10(2) == 100;
    Padded(d.year, 4) + "-" + Padded(d.month, 2) + "-" + Padded(d.day, 2)
  }

  function ParseDate(s: string): Option<Date>
    requires |s| == 10
  {
    if s[4] != '-' || s[7] != '-' then None
    else
      var year, month, day := ParseDigits(s[..4]), ParseDigits(s[5..7]), ParseDigits(s[8..10]);
      if year.None? || month.None? || day.None? then None else Some(Date(year.value, month.value, day.value))
  }

  lemma DateRoundTrip(d: Date)
    requires d.Valid()
    ensures ParseDate(FormatDate(d)) == Some(d)
  {
    assert Pow10(4) == 10000 && Pow10(2) == 100;
    PaddedRoundTrip(d.year, 4);
    PaddedRoundTrip(d.month, 2);
    PaddedRoundTrip(d.day, 2);
    FieldSlices(Padded(d.year, 4), Padded(d.month, 2), Padded(d.day, 2), '-');
  }

  function FormatClock(hour: int, minute: int, second: int): (s: string)
    requires 0 <= hour < 24 && 0 <= minute < 60 && 0 <= second < 60
    ensures |s| == 8
  {
    assert Pow10(2) == 100;
    Padded(hour, 2) + ":" + Padded(minute, 2) + ":" + Padded(second, 2)
  }

  function ParseClock(s: string): Option<(int, int, int)>
    requires |s| == 8
  {
    if s[2] != ':' || s[5] != ':' then None
    else
      var hour, minute, second := ParseDigits(s[..2]), ParseDigits(s[3..5]), ParseDigits(s[6..8]);
      if hour.None? || minute.None? || second.None? then None else Some((hour.value, minute.value, second.value))
  }

  lemma ClockRoundTrip(hour: int, minute: int, second: int)
    requires 0 <= hour < 24 && 0 <= minute < 60 && 0 <= second < 60
    ensures ParseClock(FormatClock(hour, minute, second)) == Some((hour, minute, second))
  {
    assert Pow10(2) == 100;
    PaddedRoundTrip(hour, 2);
    PaddedRoundTrip(minute, 2);
    PaddedRoundTrip(second, 2);
    FieldSlices(Padded(hour, 2), Padded(minute, 2), Padded(second, 2), ':');
  }

  function FormatIso(t: DateTime): (s: string)
    ensures |s| == 20
  {
    FormatDate(t.date) + "T" + FormatClock(t.hour, t.minute, t.second) + "Z"
  }

  function ParseIso(s: string): Option<DateTime> {
    if |s| != 20 || s[10] != 'T' || s[19] != 'Z' then None
    else
      var date, clock := ParseDate(s[0..10]), ParseClock(s[11..19]);
      if date.None? || clock.None? then None
      else
        var t := Timestamp(date.value, clock.value.0, clock.value.1, clock.value.2);
        if t.Valid() then Some(t) else None
  }

  lemma IsoRoundTrip(t: DateTime)
    ensures ParseIso(FormatIso(t)) == Some(t)
  {
    var s := FormatIso(t);
    assert s[0..10] == FormatDate(t.date);
    assert s[11..19] == FormatClock(t.hour, t.minute, t.second);
    DateRoundTrip(t.date);
    ClockRoundTrip(t.hour, t.minute, t.second);
  }

  // ----- Only what is written is read -----

  lemma DigitInverse(c: char)
    requires DigitValue(c).Some?
    ensures 0 <= DigitValue(c).value < 10 && Digit(DigitValue(c).value) == c
  {
  }

  lemma TensAndOnes(high: int, low: int)
    requires high >= 0 && 0 <= low < 10
    ensures (10 * high + low) / 10 == high && (10 * high + low) % 10 == low
  {
  }

  /** Digits are the padded form of the number they give. */
  lemma {:induction false} PaddedInverse(s: string)
    requires ParseDigits(s).Some?
    ensures 0 <= ParseDigits(s).value < Pow10(|s|) && Padded(ParseDigits(s).value, |s|) == s
  {
    if s != "" {
      var init, last := s[..|s| - 1], s[|s| - 1];
      PaddedInverse(init);
      DigitInverse(last);
      TensAndOnes(ParseDigits(init).value, DigitValue(last).value);
      assert init + [last] == s;
    }
  }

  lemma FieldInverse(s: string, n: int, width: nat)
    requires |s| == width && ParseDigits(s) == Some(n)
    ensures 0 <= n < Pow10(width) && Padded(n, width) == s
  {
    PaddedInverse(s);
  }

  /** Separated fields, put together again. */
  lemma DateFieldsJoin(s: string)
    requires |s| == 10 && s[4] == '-' && s[7] == '-'
    ensures s[..4] + "-" + s[5..7] + "-" + s[8..10] == s
  {
  }

  lemma ClockFieldsJoin(s: string)
    requires |s| == 8 && s[2] == ':' && s[5] == ':'
    ensures s[..2] + ":" + s[3..5] + ":" + s[6..8] == s
  {
  }

  lemma IsoFieldsJoin(s: string)
    requires |s| == 20 && s[10] == 'T' && s[19] == 'Z'
    ensures s[0..10] + "T" + s[11..19] + "Z" == s
  {
  }

  lemma DateInverse(s: string)
    requires |s| == 10 && ParseDate(s).Some? && ParseDate(s).value.Valid()
    ensures FormatDate(ParseDate(s).value) == s
  {
    var d := ParseDate(s).value;
    FieldInverse(s[..4], d.year, 4);
    FieldInverse(s[5..7], d.month, 2);
    FieldInverse(s[8..10], d.day, 2);
    DateFieldsJoin(s);
  }

  lemma ClockInverse(s: string)
    requires |s| == 8 && ParseClock(s).Some?
    requires var (hour, minute, second) := ParseClock(s).value; 0 <= hour < 24 && 0 <= minute < 60 && 0 <= second < 60
    ensures var (hour, minute, second) := ParseClock(s).value; FormatClock(hour, minute, second) == s
  {
    var (hour, minute, second) := ParseClock(s).value;
    FieldInverse(s[..2], hour, 2);
    FieldInverse(s[3..5], minute, 2);
    FieldInverse(s[6..8], second, 2);
    ClockFieldsJoin(s);
  }

  lemma IsoInverse(s: string)
    requires ParseIso(s).Some?
    ensures FormatIso(ParseIso(s).value) == s
  {
    DateInverse(s[0..10]);
    ClockInverse(s[11..19]);
    IsoFieldsJoin(s);
  }
}
