/** Calendar timestamps as the fields `datetime.strptime` produces, the
    arithmetic that turns them into epoch seconds (proleptic Gregorian
    calendar, as Python's `datetime`), and the two text renderings the sheet
    recipes use: `strftime("%Y-%m-%d %H:%M:%S")` and `isoformat()`. */
module CivilTime {
  import opened Wrappers
  import opened Strings

  /** A naive `datetime`: year, month, day, hour, minute, second, microsecond. */
  datatype DateTime = DateTime(year: int, month: int, day: int,
                               hour: int, minute: int, second: int, micro: int)

  predicate IsLeap(y: int) {
    y % 4 == 0 && (y % 100 != 0 || y % 400 == 0)
  }

  function DaysInMonth(y: int, m: int): int
    requires 1 <= m <= 12
  {
    if m == 2 then (if IsLeap(y) then 29 else 28)
    else if m == 4 || m == 6 || m == 9 || m == 11 then 30
    else 31
  }

  function DaysInYear(y: int): int {
    if IsLeap(y) then 366 else 365
  }

  /** The range `datetime` accepts (MINYEAR 1 to MAXYEAR 9999). */
  predicate Valid(t: DateTime) {
    && 1 <= t.year <= 9999
    && 1 <= t.month <= 12
    && 1 <= t.day <= DaysInMonth(t.year, t.month)
    && 0 <= t.hour < 24 && 0 <= t.minute < 60 && 0 <= t.second < 60
    && 0 <= t.micro < 1000000
  }

  /** A timestamp `datetime` can hold. */
  type ValidDateTime = t: DateTime | Valid(t) witness DateTime(1970, 1, 1, 0, 0, 0, 0)

  /** Days in the years before `y` (Python's `_days_before_year`). */
  function DaysBeforeYear(y: int): int
    requires y >= 1
  {
    var p := y - 1;
    p * 365 + p / 4 - p / 100 + p / 400
  }

  /** Days in the months of year `y` before month `m` (`_days_before_month`). */
  function DaysBeforeMonth(y: int, m: int): int
    requires 1 <= m <= 12
  {
    [0, 31, 59, 90, 120, 151, 181, 212, 243, 273, 304, 334][m - 1]
      + (if m > 2 && IsLeap(y) then 1 else 0)
  }

  /** `date.toordinal()`: 0001-01-01 is day 1. */
  function Ordinal(t: DateTime): int
    requires Valid(t)
  {
    DaysBeforeYear(t.year) + DaysBeforeMonth(t.year, t.month) + t.day
  }

  const EpochOrdinal: int := 719163  // date(1970, 1, 1).toordinal()

  /** Microseconds from 1970-01-01T00:00:00 to the timestamp, as the exact
      integer behind `(t - datetime(1970, 1, 1)).total_seconds()`. */
  function EpochMicros(t: DateTime): int
    requires Valid(t)
  {
    ((Ordinal(t) - EpochOrdinal) * 86400 + t.hour * 3600 + t.minute * 60 + t.second) * 1000000
      + t.micro
  }

  /** Python's `int(x)` of a quotient: truncation toward zero (Dafny's `/` is Euclidean). */
  function TruncDiv(a: int, b: int): (q: int)
    requires b > 0
    ensures a >= 0 ==> q == a / b
    ensures a < 0 ==> q == -((-a) / b)
  {
    if a >= 0 then a / b else -((-a) / b)
  }

  lemma TruncDivMonotone(a: int, c: int)
    requires a <= c
    ensures TruncDiv(a, 1000000) <= TruncDiv(c, 1000000)
  {
    if a < 0 && c < 0 {
      DivMonotone(-c, -a);
    } else if a >= 0 {
      DivMonotone(a, c);
    }
  }

  lemma DivMonotone(a: int, c: int)
    requires 0 <= a <= c
    ensures a / 1000000 <= c / 1000000
  {
    var qa, qc := a / 1000000, c / 1000000;
    assert a == qa * 1000000 + a % 1000000;
    assert c == qc * 1000000 + c % 1000000;
  }

  /** Lexicographic order on the fields: the order of `datetime` comparison. */
  predicate Before(a: DateTime, b: DateTime) {
    || a.year < b.year
    || (a.year == b.year && a.month < b.month)
    || (a.year == b.year && a.month == b.month && a.day < b.day)
  }

  predicate SameDay(a: DateTime, b: DateTime) {
    a.year == b.year && a.month == b.month && a.day == b.day
  }

  /** `a <= b` as `datetime` compares them. */
  predicate NotAfter(a: DateTime, b: DateTime) {
    Before(a, b) || (SameDay(a, b) && !TimeLess(b, a))
  }

  predicate TimeLess(a: DateTime, b: DateTime) {
    || a.hour < b.hour
    || (a.hour == b.hour && a.minute < b.minute)
    || (a.hour == b.hour && a.minute == b.minute && a.second < b.second)
    || (a.hour == b.hour && a.minute == b.minute && a.second == b.second && a.micro < b.micro)
  }

  lemma DaysBeforeYearStep(y: int)
    requires y >= 1
    ensures DaysBeforeYear(y + 1) == DaysBeforeYear(y) + DaysInYear(y)
  {
    QuotientStep4(y);
    QuotientStep100(y);
    QuotientStep400(y);
  }

  lemma QuotientStep4(y: int)
    ensures y / 4 == (y - 1) / 4 + (if y % 4 == 0 then 1 else 0)
  {
  }

  lemma QuotientStep100(y: int)
    ensures y / 100 == (y - 1) / 100 + (if y % 100 == 0 then 1 else 0)
  {
  }

  lemma QuotientStep400(y: int)
    ensures y / 400 == (y - 1) / 400 + (if y % 400 == 0 then 1 else 0)
  {
  }

  lemma {:induction false} DaysBeforeYearGrows(y1: int, y2: int)
    requires 1 <= y1 < y2
    ensures DaysBeforeYear(y1) + DaysInYear(y1) <= DaysBeforeYear(y2)
    decreases y2 - y1
  {
    DaysBeforeYearStep(y1);
    if y1 + 1 < y2 {
      DaysBeforeYearGrows(y1 + 1, y2);
    }
  }

  lemma DaysBeforeMonthStep(y: int, m: int)
    requires 1 <= m <= 12
    ensures m < 12 ==> DaysBeforeMonth(y, m) + DaysInMonth(y, m) == DaysBeforeMonth(y, m + 1)
    ensures m == 12 ==> DaysBeforeMonth(y, m) + DaysInMonth(y, m) == DaysInYear(y)
  {
  }

  lemma {:induction false} DaysBeforeMonthGrows(y: int, m1: int, m2: int)
    requires 1 <= m1 < m2 <= 12
    ensures DaysBeforeMonth(y, m1) + DaysInMonth(y, m1) <= DaysBeforeMonth(y, m2)
    decreases m2 - m1
  {
    DaysBeforeMonthStep(y, m1);
    if m1 + 1 < m2 {
      DaysBeforeMonthGrows(y, m1 + 1, m2);
      DaysBeforeMonthStep(y, m1 + 1);
    }
  }

  /** Within a year, every day of the year precedes the first of the next. */
  lemma OrdinalInYear(t: DateTime)
    requires Valid(t)
    ensures Ordinal(t) <= DaysBeforeYear(t.year) + DaysInYear(t.year)
  {
    if t.month < 12 {
      DaysBeforeMonthGrows(t.year, t.month, 12);
    }
    DaysBeforeMonthStep(t.year, 12);
  }

  /** Day numbers respect calendar order. */
  lemma OrdinalMonotone(a: DateTime, b: DateTime)
    requires Valid(a) && Valid(b) && Before(a, b)
    ensures Ordinal(a) < Ordinal(b)
  {
    if a.year < b.year {
      OrdinalInYear(a);
      DaysBeforeYearGrows(a.year, b.year);
    } else if a.month < b.month {
      DaysBeforeMonthGrows(a.year, a.month, b.month);
    }
  }

  /** Later timestamps are never fewer microseconds after the epoch. */
  lemma EpochMicrosMonotone(a: DateTime, b: DateTime)
    requires Valid(a) && Valid(b) && NotAfter(a, b)
    ensures EpochMicros(a) <= EpochMicros(b)
  {
    if Before(a, b) {
      OrdinalMonotone(a, b);
      assert (Ordinal(a) - EpochOrdinal) * 86400 + 86400 <= (Ordinal(b) - EpochOrdinal) * 86400;
    }
  }

  /** Whole epoch seconds of a naive UTC timestamp, truncated toward zero as
      `int(...)` does on the float result of `total_seconds()`. */
  function EpochSeconds(t: DateTime): int
    requires Valid(t)
  {
    TruncDiv(EpochMicros(t), 1000000)
  }

  lemma EpochSecondsMonotone(a: DateTime, b: DateTime)
    requires Valid(a) && Valid(b) && NotAfter(a, b)
    ensures EpochSeconds(a) <= EpochSeconds(b)
  {
    EpochMicrosMonotone(a, b);
    TruncDivMonotone(EpochMicros(a), EpochMicros(b));
  }

  /** `%Y` of glibc's strftime: the year without padding. */
  function YearText(y: int): string
    requires 1 <= y <= 9999
  {
    if y >= 1000 then Pad4(y) else NatToString(y)
  }

  /** The nineteen characters `YYYY-MM-DD?HH:MM:SS` common to both renderings. */
  function CoreText(t: DateTime, sep: char): (s: string)
    requires Valid(t)
    ensures |s| == 19
  {
    Pad4(t.year) + "-" + Pad2(t.month) + "-" + Pad2(t.day) + [sep]
      + Pad2(t.hour) + ":" + Pad2(t.minute) + ":" + Pad2(t.second)
  }

  /** `strftime("%Y-%m-%d %H:%M:%S")`, the sheet's "user entered" date text.
      The microseconds are dropped. For a four-digit year it is nineteen
      characters with the date and time separators at fixed places. */
  function FormatGspread(t: DateTime): (s: string)
    requires Valid(t)
    ensures t.year >= 1000 ==> |s| == 19
    ensures t.year >= 1000 ==> s[4] == '-' && s[7] == '-' && s[10] == ' ' && s[13] == ':' && s[16] == ':'
  {
    var s := YearText(t.year) + "-" + Pad2(t.month) + "-" + Pad2(t.day) + " "
      + Pad2(t.hour) + ":" + Pad2(t.minute) + ":" + Pad2(t.second);
    if t.year >= 1000 then
      assert s[..19] == s == CoreText(t, ' ');
      CoreFields(t, ' ', s);
      s
    else s
  }

  /** `isoformat()` of a naive datetime: nineteen characters, followed by a
      "." and six digits only when the microseconds are non-zero. */
  function FormatIso(t: DateTime): (s: string)
    requires Valid(t)
    ensures |s| == if t.micro == 0 then 19 else 26
    ensures s[4] == '-' && s[7] == '-' && s[10] == 'T' && s[13] == ':' && s[16] == ':'
    ensures t.micro != 0 ==> s[19] == '.'
  {
    var core := Pad4(t.year) + "-" + Pad2(t.month) + "-" + Pad2(t.day) + "T"
      + Pad2(t.hour) + ":" + Pad2(t.minute) + ":" + Pad2(t.second);
    var s := core + (if t.micro == 0 then "" else "." + Pad6(t.micro));
    assert core == CoreText(t, 'T');
    assert s[..19] == core;
    CoreFields(t, 'T', s);
    s
  }

  /** The timestamp with its microseconds set to zero. */
  function TruncateToSecond(t: DateTime): DateTime {
    t.(micro := 0)
  }

  /** Reading of a fixed-width field of digits. */
  function FieldAt(s: string, from: nat, width: nat): Option<nat> {
    if from + width <= |s| && AllDigits(s[from..from + width])
    then Some(DigitsValue(s[from..from + width])) else None
  }

  /** Parses the canonical `YYYY-MM-DD HH:MM:SS` text (`sep` is ' ') or the
      canonical ISO text `YYYY-MM-DDTHH:MM:SS[.ffffff]` (`sep` is 'T'). */
  function ParseCanonical(s: string, sep: char, allowFraction: bool): Option<DateTime> {
    if |s| < 19 then None
    else if s[4] != '-' || s[7] != '-' || s[10] != sep || s[13] != ':' || s[16] != ':' then None
    else
      var y := FieldAt(s, 0, 4);
      var mo := FieldAt(s, 5, 2);
      var d := FieldAt(s, 8, 2);
      var h := FieldAt(s, 11, 2);
      var mi := FieldAt(s, 14, 2);
      var sec := FieldAt(s, 17, 2);
      var us := if |s| == 19 then Some(0)
                else if allowFraction && |s| == 26 && s[19] == '.' then FieldAt(s, 20, 6)
                else None;
      if y.None? || mo.None? || d.None? || h.None? || mi.None? || sec.None? || us.None? then None
      else
        var t := DateTime(y.value, mo.value, d.value, h.value, mi.value, sec.value, us.value);
        if Valid(t) then Some(t) else None
  }

  function ParseGspread(s: string): Option<DateTime> {
    ParseCanonical(s, ' ', false)
  }

  function ParseIso(s: string): Option<DateTime> {
    ParseCanonical(s, 'T', true)
  }

  lemma FieldOf(s: string, from: nat, field: string, n: nat)
    requires from + |field| <= |s| && s[from..from + |field|] == field
    requires AllDigits(field) && DigitsValue(field) == n
    ensures FieldAt(s, from, |field|) == Some(n)
  {
  }

  /** A field of a prefix of `s` is read from `s` itself. */
  lemma FieldIn(s: string, c: string, from: nat, field: string, n: nat)
    requires |c| <= |s| && s[..|c|] == c && from + |field| <= |c| && c[from..from + |field|] == field
    requires AllDigits(field) && DigitsValue(field) == n
    ensures FieldAt(s, from, |field|) == Some(n)
  {
    assert s[from..from + |field|] == c[from..from + |field|];
    FieldOf(s, from, field, n);
  }

  lemma CoreDateFields(t: DateTime, sep: char, s: string)
    requires Valid(t) && 19 <= |s| && s[..19] == CoreText(t, sep)
    ensures s[4] == '-' && s[7] == '-' && s[10] == sep
    ensures FieldAt(s, 0, 4) == Some(t.year) && FieldAt(s, 5, 2) == Some(t.month)
    ensures FieldAt(s, 8, 2) == Some(t.day)
  {
    var c := CoreText(t, sep);
    assert s[4] == c[4] && s[7] == c[7] && s[10] == c[10];
    assert c[0..4] == Pad4(t.year);
    assert c[5..7] == Pad2(t.month);
    assert c[8..10] == Pad2(t.day);
    FieldIn(s, c, 0, Pad4(t.year), t.year);
    FieldIn(s, c, 5, Pad2(t.month), t.month);
    FieldIn(s, c, 8, Pad2(t.day), t.day);
  }

  lemma CoreTimeFields(t: DateTime, sep: char, s: string)
    requires Valid(t) && 19 <= |s| && s[..19] == CoreText(t, sep)
    ensures s[13] == ':' && s[16] == ':'
    ensures FieldAt(s, 11, 2) == Some(t.hour)
    ensures FieldAt(s, 14, 2) == Some(t.minute) && FieldAt(s, 17, 2) == Some(t.second)
  {
    var c := CoreText(t, sep);
    assert s[13] == c[13] && s[16] == c[16];
    assert c[11..13] == Pad2(t.hour);
    assert c[14..16] == Pad2(t.minute);
    assert c[17..19] == Pad2(t.second);
    FieldIn(s, c, 11, Pad2(t.hour), t.hour);
    FieldIn(s, c, 14, Pad2(t.minute), t.minute);
    FieldIn(s, c, 17, Pad2(t.second), t.second);
  }

  /** The six fields of the common part read back as written. */
  lemma CoreFields(t: DateTime, sep: char, s: string)
    requires Valid(t) && 19 <= |s| && s[..19] == CoreText(t, sep)
    ensures s[4] == '-' && s[7] == '-' && s[10] == sep && s[13] == ':' && s[16] == ':'
    ensures FieldAt(s, 0, 4) == Some(t.year) && FieldAt(s, 5, 2) == Some(t.month)
    ensures FieldAt(s, 8, 2) == Some(t.day) && FieldAt(s, 11, 2) == Some(t.hour)
    ensures FieldAt(s, 14, 2) == Some(t.minute) && FieldAt(s, 17, 2) == Some(t.second)
  {
    CoreDateFields(t, sep, s);
    CoreTimeFields(t, sep, s);
  }

  /** Reading back the sheet's date text gives the timestamp to the second
      (four-digit years, which are the ones `%Y` of strptime accepts). */
  lemma {:induction false} GspreadRoundTrip(t: DateTime)
    requires Valid(t) && t.year >= 1000
    ensures ParseGspread(FormatGspread(t)) == Some(TruncateToSecond(t))
  {
    var s := FormatGspread(t);
    assert s[..19] == s == CoreText(t, ' ');
    CoreFields(t, ' ', s);
  }

  /** `isoformat()` loses nothing: reading it back gives the timestamp itself. */
  lemma {:induction false} IsoRoundTrip(t: DateTime)
    requires Valid(t)
    ensures ParseIso(FormatIso(t)) == Some(t)
  {
    var s := FormatIso(t);
    assert s[..19] == CoreText(t, 'T');
    CoreFields(t, 'T', s);
    if t.micro != 0 {
      IsoFraction(t);
    } else {
      assert |s| == 19;
    }
  }

  /** The fractional part of `isoformat()`, when there is one. */
  lemma IsoFraction(t: DateTime)
    requires Valid(t) && t.micro != 0
    ensures var s := FormatIso(t); |s| == 26 && s[19] == '.' && FieldAt(s, 20, 6) == Some(t.micro)
  {
    var s := FormatIso(t);
    assert s == CoreText(t, 'T') + ("." + Pad6(t.micro));
    assert s[20..26] == Pad6(t.micro);
    FieldOf(s, 20, Pad6(t.micro), t.micro);
  }
}
