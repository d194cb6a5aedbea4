/** Dates as Python's `datetime.date` handles them, encoded as proleptic Gregorian day ordinals
    (`date.toordinal()`: 0001-01-01 is day 1), so that adding a `timedelta` of days is integer
    addition and comparing dates is comparing integers. */
module Calendar {
  import opened Wrappers
  import opened PyText

  /** `date.max.toordinal()`, the ordinal of 9999-12-31. */
  const MaxOrdinal: int := 3652059

  predicate IsLeap(y: int) {
    y % 4 == 0 && (y % 100 != 0 || y % 400 == 0)
  }

  function DaysInMonth(y: int, m: int): (n: int)
    requires 1 <= m <= 12
    ensures 28 <= n <= 31
  {
    if m == 2 then (if IsLeap(y) then 29 else 28)
    else if m == 4 || m == 6 || m == 9 || m == 11 then 30
    else 31
  }

  function DaysInYear(y: int): int {
    if IsLeap(y) then 366 else 365
  }

  /** What the `date` constructor accepts: MINYEAR is 1 and MAXYEAR is 9999. */
  predicate ValidDate(y: int, m: int, d: int) {
    1 <= y <= 9999 && 1 <= m <= 12 && 1 <= d <= DaysInMonth(y, m)
  }

  function DaysBeforeYear(y: int): int
    requires y >= 1
  {
    var p := y - 1;
    p * 365 + p / 4 - p / 100 + p / 400
  }

  function DaysBeforeMonth(y: int, m: int): int
    requires 1 <= m <= 12
  {
    if m == 1 then 0 else DaysBeforeMonth(y, m - 1) + DaysInMonth(y, m - 1)
  }

  /** The ordinal of a valid date. */
  function Ordinal(y: int, m: int, d: int): int
    requires ValidDate(y, m, d)
  {
    DaysBeforeYear(y) + DaysBeforeMonth(y, m) + d
  }

  lemma NextYear(y: int)
    requires y >= 1
    ensures DaysBeforeYear(y + 1) == DaysBeforeYear(y) + DaysInYear(y)
  {
    var p := y - 1;
    assert y / 4 == p / 4 + (if y % 4 == 0 then 1 else 0);
    assert y / 100 == p / 100 + (if y % 100 == 0 then 1 else 0);
    assert y / 400 == p / 400 + (if y % 400 == 0 then 1 else 0);
  }

  /** The cumulative month lengths of the `date` module's table, one more from March in leap years. */
  lemma {:induction false} DaysBeforeMonthTable(y: int, m: int)
    requires 1 <= m <= 12
    ensures DaysBeforeMonth(y, m)
      == [0, 31, 59, 90, 120, 151, 181, 212, 243, 273, 304, 334][m - 1] + (if m > 2 && IsLeap(y) then 1 else 0)
  {
    if m > 1 {
      DaysBeforeMonthTable(y, m - 1);
    }
  }

  lemma MonthsWithinYear(y: int, m: int)
    requires 1 <= m <= 12
    ensures DaysBeforeMonth(y, m) + DaysInMonth(y, m) <= DaysInYear(y)
    ensures m == 12 ==> DaysBeforeMonth(y, m) + DaysInMonth(y, m) == DaysInYear(y)
  {
    DaysBeforeMonthTable(y, m);
  }

  lemma {:induction false} YearsIncrease(a: int, b: int)
    requires 1 <= a < b
    ensures DaysBeforeYear(a) + DaysInYear(a) <= DaysBeforeYear(b)
    decreases b - a
  {
    NextYear(a);
    if a + 1 < b {
      YearsIncrease(a + 1, b);
    }
  }

  /** Ordinals order dates as Python compares them (year, then month, then day), and every valid
      date has an ordinal between those of `date.min` and `date.max`. */
  lemma OrdinalOrder(y: int, m: int, d: int, y': int, m': int, d': int)
    requires ValidDate(y, m, d) && ValidDate(y', m', d')
    requires y < y' || (y == y' && m < m') || (y == y' && m == m' && d < d')
    ensures 1 <= Ordinal(y, m, d) < Ordinal(y', m', d') <= MaxOrdinal
  {
    MonthsWithinYear(y, m);
    MonthsWithinYear(y', m');
    DaysBeforeMonthTable(y, m);
    DaysBeforeMonthTable(y', m');
    assert DaysBeforeYear(y) >= 0 by {
      var p := y - 1;
      assert p / 4 >= p / 100;
    }
    if y < y' {
      YearsIncrease(y, y');
    } else if m < m' {
      MonthsIncrease(y, m, m');
    }
    assert DaysBeforeYear(9999) + DaysInYear(9999) == MaxOrdinal;
    if y' < 9999 {
      YearsIncrease(y', 9999);
    }
  }

  lemma MonthsIncrease(y: int, m: int, m': int)
    requires 1 <= m < m' <= 12
    ensures DaysBeforeMonth(y, m) + DaysInMonth(y, m) <= DaysBeforeMonth(y, m')
  {
    DaysBeforeMonthTable(y, m);
    DaysBeforeMonthTable(y, m');
  }

  predicate AllDigits(s: string) {
    forall k :: 0 <= k < |s| ==> IsDigit(s[k])
  }

  /** `YYYY-MM-DD` in ASCII digits. */
  predicate IsoShape(s: string) {
    && |s| == 10
    && AllDigits(s[..4]) && s[4] == '-'
    && AllDigits(s[5..7]) && s[7] == '-'
    && AllDigits(s[8..])
  }

  /** `date.fromisoformat(s)`: exactly `YYYY-MM-DD` naming a valid date; None for the ValueError. */
  function FromIsoFormat(s: string): Option<int> {
    if IsoShape(s) then
      var y, m, d := DigitsValue(s[..4]), DigitsValue(s[5..7]), DigitsValue(s[8..]);
      if ValidDate(y, m, d) then Some(Ordinal(y, m, d)) else None
    else None
  }

  function Pow10(w: nat): nat {
    if w == 0 then 1 else 10 * Pow10(w - 1)
  }

  /** `n` in decimal, zero-padded (or cut) to `width` digits, as `date.isoformat()` writes fields. */
  function Padded(n: nat, width: nat): (s: string)
    ensures |s| == width && AllDigits(s)
  {
    if width == 0 then [] else Padded(n / 10, width - 1) + [('0' as int + n % 10) as char]
  }

  /** `date.isoformat()`: `YYYY-MM-DD`. */
  function IsoText(y: nat, m: nat, d: nat): string {
    Padded(y, 4) + "-" + Padded(m, 2) + "-" + Padded(d, 2)
  }

  /** Reading a padded field gives back the number it was written from. */
  lemma {:induction false} PaddedValue(n: nat, width: nat)
    requires n < Pow10(width)
    ensures DigitsValue(Padded(n, width)) == n
  {
    if width > 0 {
      var s := Padded(n, width);
      assert s[..|s| - 1] == Padded(n / 10, width - 1);
      PaddedValue(n / 10, width - 1);
    }
  }

  /** Writing a field of digits back at its own width gives the same text. */
  lemma {:induction false} PaddedOfDigits(f: string)
    requires AllDigits(f)
    ensures Padded(DigitsValue(f), |f|) == f
  {
    if f != [] {
      var init := f[..|f| - 1];
      assert AllDigits(init) by {
        forall k | 0 <= k < |init| ensures IsDigit(init[k]) {
          assert init[k] == f[k];
        }
      }
      PaddedOfDigits(init);
      var v := DigitsValue(f);
      assert v == DigitsValue(init) * 10 + DigitValue(f[|f| - 1]);
      assert v / 10 == DigitsValue(init) && v % 10 == DigitValue(f[|f| - 1]);
      assert f == init + [f[|f| - 1]];
    }
  }

  /** Every valid date's ISO text is read as that date's day number. */
  lemma FromIsoFormatReadsIsoText(y: nat, m: nat, d: nat)
    requires ValidDate(y, m, d)
    ensures FromIsoFormat(IsoText(y, m, d)) == Some(Ordinal(y, m, d))
  {
    var s := IsoText(y, m, d);
    assert s[..4] == Padded(y, 4) && s[4] == '-';
    assert s[5..7] == Padded(m, 2) && s[7] == '-';
    assert s[8..] == Padded(d, 2);
    PaddedValue(y, 4);
    PaddedValue(m, 2);
    PaddedValue(d, 2);
  }

  /** fromisoformat accepts no other text: whatever it reads is the ISO text of a valid date,
      and it reads as that date's day number. */
  lemma FromIsoFormatOnlyIsoText(s: string)
    ensures FromIsoFormat(s).Some? ==>
      exists y: nat, m: nat, d: nat :: ValidDate(y, m, d) && s == IsoText(y, m, d)
        && FromIsoFormat(s) == Some(Ordinal(y, m, d))
  {
    if FromIsoFormat(s).Some? {
      IsoTextOfShape(s);
    }
  }

  /** Text of the ISO shape is the ISO text of the numbers its fields spell. */
  lemma IsoTextOfShape(s: string)
    requires IsoShape(s)
    ensures s == IsoText(DigitsValue(s[..4]), DigitsValue(s[5..7]), DigitsValue(s[8..]))
  {
    PaddedOfDigits(s[..4]);
    PaddedOfDigits(s[5..7]);
    PaddedOfDigits(s[8..]);
    assert s == s[..4] + "-" + s[5..7] + "-" + s[8..];
  }

  /** The text `%m` matches in strptime: `1[0-2]|0[1-9]|[1-9]`. */
  predicate MonthField(f: string) {
    || (|f| == 2 && f[0] == '1' && '0' <= f[1] <= '2')
    || (|f| == 2 && f[0] == '0' && '1' <= f[1] <= '9')
    || (|f| == 1 && '1' <= f[0] <= '9')
  }

  /** The text `%d` matches in strptime: `3[01]|[12]\d|0[1-9]|[1-9]| [1-9]`. */
  predicate DayField(f: string) {
    || (|f| == 2 && f[0] == '3' && '0' <= f[1] <= '1')
    || (|f| == 2 && '1' <= f[0] <= '2' && IsDigit(f[1]))
    || (|f| == 2 && f[0] == '0' && '1' <= f[1] <= '9')
    || (|f| == 1 && '1' <= f[0] <= '9')
    || (|f| == 2 && f[0] == ' ' && '1' <= f[1] <= '9')
  }

  /** The value `int()` gives a matched `%d` field (it ignores the leading blank of ` 5`). */
  function DayFieldValue(f: string): nat
    requires DayField(f)
  {
    if f[0] == ' ' then DigitValue(f[1]) else DigitsValue(f)
  }

  /** `%Y-%m-%d` followed by `-`: splits the date part of `body` into year, month and day text. */
  function SplitDate(body: string): Option<(string, string, string)> {
    if |body| < 7 || body[4] != '-' then None
    else
      var rest := body[5..];
      if rest[1] == '-' then Some((body[..4], rest[..1], rest[2..]))
      else if |rest| >= 3 && rest[2] == '-' then Some((body[..4], rest[..2], rest[3..]))
      else None
  }

  /** `datetime.strptime(s, '%Y-%m-%dT00:00:00').date()`: the pattern must match all of `s`
      (matching ignores case, so `t` stands for `T`) and name a valid date; None for the
      ValueError raised otherwise. */
  function Strptime(s: string): Option<int> {
    if |s| < 9 || s[|s| - 9] !in "Tt" || s[|s| - 8..] != "00:00:00" then None
    else
      var parts :- SplitDate(s[..|s| - 9]);
      var (year, month, day) := parts;
      if AllDigits(year) && MonthField(month) && DayField(day) then
        var y, m, d := DigitsValue(year), DigitsValue(month), DayFieldValue(day);
        if ValidDate(y, m, d) then Some(Ordinal(y, m, d)) else None
      else None
  }

  /** The two parsers agree on the ISO text the marketplace sends: strptime on
      `YYYY-MM-DDT00:00:00` gives the day fromisoformat gives on `YYYY-MM-DD`. */
  lemma StrptimeAgreesWithIso(s: string)
    requires IsoShape(s)
    ensures Strptime(s + "T00:00:00") == FromIsoFormat(s)
  {
    var t := s + "T00:00:00";
    assert t[..|t| - 9] == s;
    assert t[|t| - 8..] == "00:00:00";
    var rest := s[5..];
    assert rest[..2] == s[5..7] && rest[3..] == s[8..];
    assert SplitDate(s) == Some((s[..4], s[5..7], s[8..]));
    TwoDigits(s[5..7]);
    TwoDigits(s[8..]);
  }

  lemma TwoDigits(f: string)
    requires |f| == 2 && IsDigit(f[0]) && IsDigit(f[1])
    ensures DigitsValue(f) == DigitValue(f[0]) * 10 + DigitValue(f[1])
  {
    assert f[..1] == [f[0]] && [f[0]][..0] == [];
    assert DigitsValue([f[0]]) == DigitValue(f[0]);
  }

  lemma FourDigits(f: string)
    requires |f| == 4 && AllDigits(f)
    ensures DigitsValue(f) == DigitValue(f[0]) * 1000 + DigitValue(f[1]) * 100 + DigitValue(f[2]) * 10 + DigitValue(f[3])
  {
    var three := f[..3];
    assert three[..2] == f[..2];
    TwoDigits(f[..2]);
  }

  /** Worked case: the payment date of the marketplace's ISO timestamp is 2021-03-01. */
  lemma IsoExample()
    ensures FromIsoFormat("2021-03-01") == Some(Ordinal(2021, 3, 1))
  {
    var s := "2021-03-01";
    assert s[..4] == "2021" && s[5..7] == "03" && s[8..] == "01";
    FourDigits("2021");
    TwoDigits("03");
    TwoDigits("01");
  }

  /** Worked case: 2021 is not a leap year, so fromisoformat refuses its 29 February. */
  lemma IsoRejectsInvalidDay()
    ensures FromIsoFormat("2021-02-29") == None
  {
    var s := "2021-02-29";
    assert s[..4] == "2021" && s[5..7] == "02" && s[8..] == "29";
    FourDigits("2021");
    TwoDigits("02");
    TwoDigits("29");
    assert !IsLeap(2021);
  }

  /** Worked case: strptime reads the marketplace's timestamp `2021-03-01T00:00:00` as that day. */
  lemma StrptimeExample()
    ensures Strptime("2021-03-01T00:00:00") == Some(Ordinal(2021, 3, 1))
  {
    var text := "2021-03-01";
    assert text + "T00:00:00" == "2021-03-01T00:00:00";
    assert IsoShape(text) by {
      assert text[..4] == "2021" && text[5..7] == "03" && text[8..] == "01";
    }
    StrptimeAgreesWithIso(text);
    IsoExample();
  }
}
