/** The birth-date text the main window handles (personal/controller/controller.py):
    the date box shows `dd/mm/YYYY`; saving parses it as `strptime` does with
    `"%d/%m/%Y"` and stores `strftime("%Y-%m-%d")`; loading slices the stored
    text at `[0:4]`, `[5:7]`, `[8:10]` and reads each slice as a number.
 */
module Dates {
  import opened Results

  datatype Date = Date(year: int, month: int, day: int)

  predicate IsLeap(y: int) {
    (y % 4 == 0 && y % 100 != 0) || y % 400 == 0
  }

  /** Length of a month in the proleptic Gregorian calendar. */
  function DaysInMonth(y: int, m: int): (n: int)
    requires 1 <= m <= 12
    ensures 28 <= n <= 31
    ensures m == 2 ==> (n == 29 <==> IsLeap(y))
    ensures m == 4 || m == 6 || m == 9 || m == 11 ==> n == 30
    ensures m != 2 && m != 4 && m != 6 && m != 9 && m != 11 ==> n == 31
  {
    if m == 2 then (if IsLeap(y) then 29 else 28)
    else if m == 4 || m == 6 || m == 9 || m == 11 then 30
    else 31
  }

  /** Days in the first `k` months of year `y`. */
  function DaysBefore(y: int, k: nat): (n: nat)
    requires k <= 12
  {
    if k == 0 then 0 else DaysBefore(y, k - 1) + DaysInMonth(y, k)
  }

  /** The twelve month lengths add up to the length of the year: 366 days
      exactly in a leap year. */
  lemma {:induction false} YearLength(y: int)
    ensures DaysBefore(y, 12) == if IsLeap(y) then 366 else 365
  {
    var f := DaysBefore(y, 2);
    assert f == if IsLeap(y) then 60 else 59 by {
      assert DaysBefore(y, 1) == 31;
    }
    assert DaysBefore(y, 3) == f + 31;
    assert DaysBefore(y, 4) == f + 61;
    assert DaysBefore(y, 5) == f + 92;
    assert DaysBefore(y, 6) == f + 122;
    assert DaysBefore(y, 7) == f + 153;
    assert DaysBefore(y, 8) == f + 184;
    assert DaysBefore(y, 9) == f + 214;
    assert DaysBefore(y, 10) == f + 245;
    assert DaysBefore(y, 11) == f + 275;
  }

  /** The dates a `datetime` can hold. */
  predicate ValidDate(d: Date) {
    1 <= d.year <= 9999 && 1 <= d.month <= 12 && 1 <= d.day <= DaysInMonth(d.year, d.month)
  }

  // ---------------------------------------------------------------------
  // Decimal digits
  // ---------------------------------------------------------------------

  predicate IsDigit(c: char) {
    '0' <= c <= '9'
  }

  predicate AllDigits(s: string) {
    forall i :: 0 <= i < |s| ==> IsDigit(s[i])
  }

  function DigitOf(n: int): (c: char)
    requires 0 <= n <= 9
    ensures IsDigit(c) && c as int - '0' as int == n
  {
    ('0' as int + n) as char
  }

  /** What `int()` makes of a string of decimal digits. */
  function DigitsValue(s: string): (n: nat)
    requires AllDigits(s)
  {
    if |s| == 0 then 0
    else DigitsValue(s[..|s| - 1]) * 10 + (s[|s| - 1] as int - '0' as int)
  }

  function Pow10(w: nat): (p: nat)
    ensures p >= 1
  {
    if w == 0 then 1 else 10 * Pow10(w - 1)
  }

  /** `n` in exactly `w` decimal digits, zero-padded on the left. */
  function Fixed(n: nat, w: nat): (s: string)
    requires n < Pow10(w)
    ensures |s| == w && AllDigits(s)
  {
    if w == 0 then "" else Fixed(n / 10, w - 1) + [DigitOf(n % 10)]
  }

  /** Reading back a zero-padded numeral gives the number written. */
  lemma {:induction false} FixedValue(n: nat, w: nat)
    requires n < Pow10(w)
    ensures DigitsValue(Fixed(n, w)) == n
  {
    if w > 0 {
      var s := Fixed(n, w);
      assert s[..|s| - 1] == Fixed(n / 10, w - 1);
      FixedValue(n / 10, w - 1);
    }
  }

  // ---------------------------------------------------------------------
  // strptime(text, "%d/%m/%Y")
  // ---------------------------------------------------------------------

  /** The text `%d` accepts: `3[01]`, `[12]\d`, `0[1-9]`, `[1-9]` or ` [1-9]`. */
  predicate DayToken(t: string) {
    || (|t| == 2 && t[0] == '3' && (t[1] == '0' || t[1] == '1'))
    || (|t| == 2 && (t[0] == '1' || t[0] == '2') && IsDigit(t[1]))
    || (|t| == 2 && t[0] == '0' && '1' <= t[1] <= '9')
    || (|t| == 1 && '1' <= t[0] <= '9')
    || (|t| == 2 && t[0] == ' ' && '1' <= t[1] <= '9')
  }

  /** The text `%m` accepts: `1[0-2]`, `0[1-9]` or `[1-9]`. */
  predicate MonthToken(t: string) {
    || (|t| == 2 && t[0] == '1' && '0' <= t[1] <= '2')
    || (|t| == 2 && t[0] == '0' && '1' <= t[1] <= '9')
    || (|t| == 1 && '1' <= t[0] <= '9')
  }

  /** The text `%Y` accepts: four digits. */
  predicate YearToken(t: string) {
    |t| == 4 && AllDigits(t)
  }

  /** The number a day or month token stands for; `int()` skips the leading blank. */
  function TokenValue(t: string): (n: nat)
    requires DayToken(t) || MonthToken(t)
    ensures 1 <= n <= 31
    ensures MonthToken(t) ==> n <= 12
  {
    var digits := if t[0] == ' ' then t[1..] else t;
    ShortValue(digits);
    DigitsValue(digits)
  }

  /** The value of a one- or two-digit numeral. */
  lemma ShortValue(t: string)
    requires AllDigits(t)
    ensures |t| == 1 ==> DigitsValue(t) == t[0] as int - '0' as int
    ensures |t| == 2 ==> DigitsValue(t) == 10 * (t[0] as int - '0' as int) + (t[1] as int - '0' as int)
  {
    if |t| == 2 {
      assert t[..1][..0] == [];
    }
  }

  /** Position of the first `c` in `s`, if any. */
  function Find(s: string, c: char): (r: Option<nat>)
    ensures r.Some? ==> r.value < |s| && s[r.value] == c && forall i :: 0 <= i < r.value ==> s[i] != c
    ensures r.None? ==> forall i :: 0 <= i < |s| ==> s[i] != c
  {
    if |s| == 0 then None
    else if s[0] == c then Some(0)
    else match Find(s[1..], c)
      case None => None
      case Some(k) => Some(k + 1)
  }

  /** The date three tokens stand for, if they are tokens and make a date. */
  function FieldsDate(dayText: string, monthText: string, yearText: string): (r: Option<Date>)
    ensures r.Some? ==> ValidDate(r.value)
  {
    if !DayToken(dayText) || !MonthToken(monthText) || !YearToken(yearText) then None
    else
      var d := Date(DigitsValue(yearText), TokenValue(monthText), TokenValue(dayText));
      if ValidDate(d) then Some(d) else None
  }

  /** `strptime(s, "%d/%m/%Y")`: `None` where Python raises `ValueError`.
      No token contains `/`, so each one is the text up to the next `/`;
      the year must reach the end of the text; year 0 and a day past the
      end of the month are rejected. */
  function ParseDisplay(s: string): (r: Option<Date>)
    ensures r.Some? ==> ValidDate(r.value)
  {
    match Find(s, '/')
    case None => None
    case Some(i) =>
      var rest := s[i + 1..];
      match Find(rest, '/')
      case None => None
      case Some(j) => FieldsDate(s[..i], rest[..j], rest[j + 1..])
  }

  predicate NoSlash(t: string) {
    forall i :: 0 <= i < |t| ==> t[i] != '/'
  }

  /** `Find` reports the first occurrence. */
  lemma FindFirst(s: string, k: nat, c: char)
    requires k < |s| && s[k] == c
    requires forall i :: 0 <= i < k ==> s[i] != c
    ensures Find(s, c) == Some(k)
  {
  }

  /** A text made of two slash-free fields and a rest parses field by field. */
  lemma ParseFields(dayText: string, monthText: string, yearText: string)
    requires NoSlash(dayText) && NoSlash(monthText)
    ensures ParseDisplay(dayText + "/" + monthText + "/" + yearText) == FieldsDate(dayText, monthText, yearText)
  {
    var rest := monthText + "/" + yearText;
    var s := dayText + "/" + rest;
    assert s == dayText + "/" + monthText + "/" + yearText;
    assert forall i :: 0 <= i < |dayText| ==> s[i] == dayText[i];
    FindFirst(s, |dayText|, '/');
    assert s[|dayText| + 1..] == rest;
    assert forall i :: 0 <= i < |monthText| ==> rest[i] == monthText[i];
    FindFirst(rest, |monthText|, '/');
    assert s[..|dayText|] == dayText;
    assert rest[..|monthText|] == monthText && rest[|monthText| + 1..] == yearText;
  }

  // ---------------------------------------------------------------------
  // strftime and the two texts
  // ---------------------------------------------------------------------

  /** `strftime("%Y-%m-%d")`. */
  function FormatIso(d: Date): (r: string)
    requires ValidDate(d)
    ensures |r| == 10 && r[4] == '-' && r[7] == '-'
    ensures AllDigits(r[0..4]) && DigitsValue(r[0..4]) == d.year
    ensures AllDigits(r[5..7]) && DigitsValue(r[5..7]) == d.month
    ensures AllDigits(r[8..10]) && DigitsValue(r[8..10]) == d.day
  {
    var yy, mm, dd := Fixed(d.year, 4), Fixed(d.month, 2), Fixed(d.day, 2);
    var r := yy + "-" + mm + "-" + dd;
    assert r[0..4] == yy && r[5..7] == mm && r[8..10] == dd;
    FixedValue(d.year, 4);
    FixedValue(d.month, 2);
    FixedValue(d.day, 2);
    r
  }

  /** The date box's `dd/mm/YYYY` text for a date. */
  function FormatDisplay(d: Date): (r: string)
    requires ValidDate(d)
    ensures |r| == 10 && r[2] == '/' && r[5] == '/'
    ensures AllDigits(r[0..2]) && DigitsValue(r[0..2]) == d.day
    ensures AllDigits(r[3..5]) && DigitsValue(r[3..5]) == d.month
    ensures AllDigits(r[6..10]) && DigitsValue(r[6..10]) == d.year
  {
    var dd, mm, yy := Fixed(d.day, 2), Fixed(d.month, 2), Fixed(d.year, 4);
    var r := dd + "/" + mm + "/" + yy;
    assert r[0..2] == dd && r[3..5] == mm && r[6..10] == yy;
    FixedValue(d.day, 2);
    FixedValue(d.month, 2);
    FixedValue(d.year, 4);
    r
  }

  /** The conversion `OnGuardarPersona` applies before writing: the stored
      text, or `None` when the typed date is not a date. */
  function ConvertBirthDate(text: string): (r: Option<string>)
    ensures r.Some? <==> ParseDisplay(text).Some?
    ensures r.Some? ==> r.value == FormatIso(ParseDisplay(text).value)
  {
    match ParseDisplay(text)
    case None => None
    case Some(d) => Some(FormatIso(d))
  }

  /** A stored text whose three slices are numerals. */
  predicate IsoShaped(f: string) {
    |f| >= 10 && AllDigits(f[0..4]) && AllDigits(f[5..7]) && AllDigits(f[8..10])
  }

  /** A numeral of `w` digits is below `10^w`. */
  lemma {:induction false} DigitsBound(t: string)
    requires AllDigits(t)
    ensures DigitsValue(t) < Pow10(|t|)
  {
    if |t| > 0 {
      DigitsBound(t[..|t| - 1]);
    }
  }

  /** `int(fnac[0:4])`, `int(fnac[5:7])`, `int(fnac[8:10])`: a year below
      10000 and a month and day below 100, not necessarily a valid date. */
  function SliceDate(f: string): (r: Date)
    requires IsoShaped(f)
    ensures 0 <= r.year < 10000 && 0 <= r.month < 100 && 0 <= r.day < 100
  {
    DigitsBound(f[0..4]);
    DigitsBound(f[5..7]);
    DigitsBound(f[8..10]);
    assert Pow10(2) == 100 && Pow10(4) == 10000;
    Date(DigitsValue(f[0..4]), DigitsValue(f[5..7]), DigitsValue(f[8..10]))
  }

  // ---------------------------------------------------------------------
  // Round trips
  // ---------------------------------------------------------------------

  /** Slicing a stored date recovers the year, month and day that were written. */
  lemma SliceFormatIso(d: Date)
    requires ValidDate(d)
    ensures IsoShaped(FormatIso(d))
    ensures SliceDate(FormatIso(d)) == d
  {
  }

  /** The two digits of a day, in the shape `%d` reads. */
  lemma DayFixed(n: nat)
    requires 1 <= n <= 31
    ensures DayToken(Fixed(n, 2)) && TokenValue(Fixed(n, 2)) == n
  {
    TwoDigits(n);
    FixedValue(n, 2);
  }

  lemma TwoDigits(n: nat)
    requires n < 100
    ensures Fixed(n, 2) == [DigitOf(n / 10), DigitOf(n % 10)]
  {
    assert n / 10 / 10 == 0;
    assert Fixed(n / 10, 1) == [DigitOf(n / 10 % 10)];
  }

  /** The two digits of a month, in the shape `%m` reads. */
  lemma MonthFixed(n: nat)
    requires 1 <= n <= 12
    ensures MonthToken(Fixed(n, 2)) && TokenValue(Fixed(n, 2)) == n
  {
    TwoDigits(n);
    FixedValue(n, 2);
  }

  /** What the date box shows for a date parses back to that date. */
  lemma ParseFormatDisplay(d: Date)
    requires ValidDate(d)
    ensures ParseDisplay(FormatDisplay(d)) == Some(d)
  {
    var dd, mm, yy := Fixed(d.day, 2), Fixed(d.month, 2), Fixed(d.year, 4);
    ParseFields(dd, mm, yy);
    DayFixed(d.day);
    MonthFixed(d.month);
    FixedValue(d.year, 4);
  }

  /** Loading a stored date into the date box and saving it again writes
      the same text back. */
  lemma LoadSaveBirthDate(d: Date)
    requires ValidDate(d)
    ensures IsoShaped(FormatIso(d))
    ensures ValidDate(SliceDate(FormatIso(d)))
    ensures ConvertBirthDate(FormatDisplay(SliceDate(FormatIso(d)))) == Some(FormatIso(d))
  {
    SliceFormatIso(d);
    ParseFormatDisplay(d);
  }

  /** A slash-free field of digits. */
  lemma DigitsNoSlash(t: string)
    requires AllDigits(t)
    ensures NoSlash(t)
  {
  }

  /** A text of zero-padded day, month and year numerals parses exactly when
      it names a valid date: day 0 is not a token, and year 0 and a day
      past the end of the month are rejected. */
  lemma ParseFixedFields(y: nat, m: nat, d: nat)
    requires y <= 9999 && 1 <= m <= 12 && 1 <= d <= 31
    ensures y < Pow10(4)
    ensures ParseDisplay(Fixed(d, 2) + "/" + Fixed(m, 2) + "/" + Fixed(y, 4))
            == if ValidDate(Date(y, m, d)) then Some(Date(y, m, d)) else None
  {
    assert Pow10(4) == 10000;
    var dd, mm, yy := Fixed(d, 2), Fixed(m, 2), Fixed(y, 4);
    DigitsNoSlash(dd);
    DigitsNoSlash(mm);
    ParseFields(dd, mm, yy);
    DayFixed(d);
    MonthFixed(m);
    FixedValue(y, 4);
  }

  /** One-digit day and month fields, as `[1-9]` admits, parse like their
      zero-padded forms. */
  lemma ParseShortFields(y: nat, m: nat, d: nat)
    requires y <= 9999 && 1 <= m <= 9 && 1 <= d <= 9
    ensures y < Pow10(4)
    ensures ParseDisplay([DigitOf(d)] + "/" + [DigitOf(m)] + "/" + Fixed(y, 4))
            == if ValidDate(Date(y, m, d)) then Some(Date(y, m, d)) else None
  {
    assert Pow10(4) == 10000;
    var dd, mm, yy := [DigitOf(d)], [DigitOf(m)], Fixed(y, 4);
    ShortValue(dd);
    ShortValue(mm);
    ParseFields(dd, mm, yy);
    FixedValue(y, 4);
  }

  /** A blank before a one-digit day, as `" [1-9]"` admits, parses like the
      zero-padded day. */
  lemma ParseBlankDay(y: nat, m: nat, d: nat)
    requires y <= 9999 && 1 <= m <= 12 && 1 <= d <= 9
    ensures y < Pow10(4)
    ensures ParseDisplay(" " + [DigitOf(d)] + "/" + Fixed(m, 2) + "/" + Fixed(y, 4))
            == if ValidDate(Date(y, m, d)) then Some(Date(y, m, d)) else None
  {
    assert Pow10(4) == 10000;
    var dd, mm, yy := " " + [DigitOf(d)], Fixed(m, 2), Fixed(y, 4);
    assert dd[1..] == [DigitOf(d)];
    ShortValue(dd[1..]);
    DigitsNoSlash(mm);
    ParseFields(dd, mm, yy);
    MonthFixed(m);
    FixedValue(y, 4);
  }

  /** Every day past the end of its month is rejected. */
  lemma ParseDayPastMonthEnd(y: nat, m: nat, d: nat)
    requires 1 <= y <= 9999 && 1 <= m <= 12 && DaysInMonth(y, m) < d <= 31
    ensures y < Pow10(4)
    ensures ParseDisplay(Fixed(d, 2) + "/" + Fixed(m, 2) + "/" + Fixed(y, 4)) == None
  {
    ParseFixedFields(y, m, d);
  }

  /** A two-digit month above 12 is not a `%m` token, whatever surrounds it. */
  lemma ParseMonthOutOfRange(dayText: string, m: nat, yearText: string)
    requires NoSlash(dayText) && 13 <= m <= 99
    ensures ParseDisplay(dayText + "/" + Fixed(m, 2) + "/" + yearText) == None
  {
    var mm := Fixed(m, 2);
    TwoDigits(m);
    DigitsNoSlash(mm);
    assert !MonthToken(mm);
    ParseFields(dayText, mm, yearText);
  }

  /** A year field that is not four characters long is rejected, so a
      two-digit year is never read as a century. */
  lemma ParseYearNotFour(dayText: string, monthText: string, yearText: string)
    requires NoSlash(dayText) && NoSlash(monthText) && |yearText| != 4
    ensures ParseDisplay(dayText + "/" + monthText + "/" + yearText) == None
  {
    ParseFields(dayText, monthText, yearText);
  }
}
