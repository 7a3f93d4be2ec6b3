/** Calendar dates as `datetime.strptime(s, "%Y-%m-%d").date()` reads them
    in the sort key of app.py `build_shift_index`. */
module Calendar {
  import opened Wrappers
  import opened Text

  datatype Date = Date(year: nat, month: nat, day: nat)

  /** `datetime.min.date()`, the fallback for an unparsable date. */
  const MinDate := Date(1, 1, 1)

  /** The Gregorian leap-year rule `datetime` uses. */
  predicate IsLeapYear(y: nat) {
    y % 4 == 0 && (y % 100 != 0 || y % 400 == 0)
  }

  function DaysInMonth(y: nat, m: nat): (n: nat)
    requires 1 <= m <= 12
    ensures 28 <= n <= 31
  {
    if m == 2 then (if IsLeapYear(y) then 29 else 28)
    else if m == 4 || m == 6 || m == 9 || m == 11 then 30
    else 31
  }

  /** A date `datetime.date` accepts, with a four-digit year. */
  predicate ValidDate(d: Date) {
    && 1 <= d.year <= 9999
    && 1 <= d.month <= 12
    && 1 <= d.day <= DaysInMonth(d.year, d.month)
  }

  /** `%Y`, the pattern `\d\d\d\d`: exactly four ASCII digits. */
  function YearField(u: string): (r: Option<nat>)
    ensures r.Some? ==> r.value < 10000
  {
    if |u| == 4 && IsDigit(u[0]) && IsDigit(u[1]) && IsDigit(u[2]) && IsDigit(u[3]) then
      Some(((DigitValue(u[0]) * 10 + DigitValue(u[1])) * 10 + DigitValue(u[2])) * 10 + DigitValue(u[3]))
    else None
  }

  /** `%m`, the pattern `1[0-2]|0[1-9]|[1-9]`: one or two digits worth 1 to 12. */
  function MonthField(u: string): (r: Option<nat>)
    ensures r.Some? ==> 1 <= r.value <= 12
  {
    match ShortNumber(u)
    case Some(n) => if 1 <= n <= 12 then Some(n) else None
    case None => None
  }

  /** `%d`, the pattern `3[01]|[12]\d|0[1-9]|[1-9]| [1-9]`: one or two digits
      worth 1 to 31, or a space followed by a nonzero digit. */
  function DayField(u: string): (r: Option<nat>)
    ensures r.Some? ==> 1 <= r.value <= 31
  {
    match ShortNumber(u)
    case Some(n) => if 1 <= n <= 31 then Some(n) else None
    case None =>
      if |u| == 2 && u[0] == ' ' && '1' <= u[1] <= '9' then Some(DigitValue(u[1])) else None
  }

  /** Combines the three fields, rejecting what `datetime.date` rejects:
      year 0 and a day past the end of its month. */
  function CombineDate(y: string, m: string, d: string): (r: Option<Date>)
    ensures r.Some? ==> ValidDate(r.value)
  {
    match (YearField(y), MonthField(m), DayField(d))
    case (Some(year), Some(month), Some(day)) =>
      if 1 <= year && day <= DaysInMonth(year, month) then Some(Date(year, month, day)) else None
    case _ => None
  }

  /** `datetime.strptime(s, "%Y-%m-%d").date()`, with `None` where it raises.
      The year is exactly four digits and the month one or two, so the
      second dash is the seventh or the eighth character. No trimming: the
      caller passes an already stripped string. */
  function ParseDate(s: string): (r: Option<Date>)
    ensures r.Some? ==> ValidDate(r.value)
  {
    if |s| >= 5 && s[4] == '-' then
      var rest := s[5..];
      if |rest| >= 2 && rest[1] == '-' then CombineDate(s[..4], rest[..1], rest[2..])
      else if |rest| >= 3 && rest[2] == '-' then CombineDate(s[..4], rest[..2], rest[3..])
      else None
    else None
  }

  /** The date in the sort key: parsed, or `datetime.min` when unparsable. */
  function DateOrMin(s: string): (d: Date)
    ensures ValidDate(d)
    ensures ParseDate(s).Some? ==> d == ParseDate(s).value
    ensures ParseDate(s).None? ==> d == MinDate
  {
    ParseDate(s).GetOr(MinDate)
  }

  /** `n` written with exactly four digits, zero padded. */
  function Pad4(n: nat): (r: string)
    requires n < 10000
    ensures |r| == 4 && YearField(r) == Some(n)
  {
    var hi, lo := Pad2(n / 100), Pad2(n % 100);
    var r := hi + lo;
    assert r[0] == hi[0] && r[1] == hi[1] && r[2] == lo[0] && r[3] == lo[1];
    assert (n / 100) / 10 * 10 + (n / 100) % 10 == n / 100;
    assert (n % 100) / 10 * 10 + (n % 100) % 10 == n % 100;
    assert (n / 100) * 100 + n % 100 == n;
    r
  }

  /** The canonical `YYYY-MM-DD` form of a date. */
  function FormatDate(d: Date): string
    requires ValidDate(d)
  {
    Pad4(d.year) + "-" + Pad2(d.month) + "-" + Pad2(d.day)
  }

  /** Formatting a valid date then parsing it gives the date back. */
  lemma ParseFormatDateRoundTrip(d: Date)
    requires ValidDate(d)
    ensures ParseDate(FormatDate(d)) == Some(d)
  {
    var s := FormatDate(d);
    var y, m, dd := Pad4(d.year), Pad2(d.month), Pad2(d.day);
    assert s[..4] == y;
    assert s[4] == '-';
    var rest := s[5..];
    assert rest == m + "-" + dd;
    assert rest[2] == '-' && rest[1] != '-';
    assert rest[..2] == m && rest[3..] == dd;
    assert MonthField(m) == Some(d.month);
    assert DayField(dd) == Some(d.day);
  }

  /** `%Y` reads `u` as the year `y` exactly when `u` is the four digits of
      `y`, zero padded. */
  lemma YearFieldSpelling(u: string, y: nat)
    requires y < 10000
    ensures YearField(u) == Some(y) <==> u == Pad4(y)
  {
    if YearField(u) == Some(y) {
      var a, b, c, d := DigitValue(u[0]), DigitValue(u[1]), DigitValue(u[2]), DigitValue(u[3]);
      assert y / 100 == a * 10 + b && y % 100 == c * 10 + d;
      assert ShortNumber(u[..2]) == Some(y / 100);
      assert ShortNumber(u[2..]) == Some(y % 100);
      ShortNumberSpelling(u[..2], y / 100);
      ShortNumberSpelling(u[2..], y % 100);
      assert u == u[..2] + u[2..];
    }
  }

  /** `%m` reads `u` as the month `m` exactly when `u` is one of the
      one-or-two-digit spellings of `m`. */
  lemma MonthFieldSpelling(u: string, m: nat)
    requires 1 <= m <= 12
    ensures MonthField(u) == Some(m) <==> u in FieldSpellings(m)
  {
    ShortNumberSpelling(u, m);
  }

  /** The spellings `%d` accepts for the day `n`: those of a one-or-two-digit
      field and, for a single-digit day, a space followed by its digit. */
  function DaySpellings(n: nat): set<string>
    requires 1 <= n <= 31
  {
    FieldSpellings(n) + (if n < 10 then {[' ', DigitChar(n)]} else {})
  }

  lemma DayFieldSpelling(u: string, n: nat)
    requires 1 <= n <= 31
    ensures DayField(u) == Some(n) <==> u in DaySpellings(n)
  {
    ShortNumberSpelling(u, n);
    if DayField(u) == Some(n) && ShortNumber(u).None? {
      assert u == [' ', DigitChar(n)];
    }
    if n < 10 && u == [' ', DigitChar(n)] {
      assert ShortNumber(u).None?;
    }
  }

  /** Every string `"%Y-%m-%d"` reads as the date `d`. */
  ghost function DateSpellings(d: Date): set<string>
    requires ValidDate(d)
  {
    set m, dd | m in FieldSpellings(d.month) && dd in DaySpellings(d.day) :: Pad4(d.year) + "-" + m + "-" + dd
  }

  lemma ParseDateSound(s: string, d: Date)
    requires ValidDate(d) && ParseDate(s) == Some(d)
    ensures s in DateSpellings(d)
  {
    var rest := s[5..];
    var i := if |rest| >= 2 && rest[1] == '-' then 1 else 2;
    var y, m, dd := s[..4], rest[..i], rest[i + 1..];
    assert CombineDate(y, m, dd) == Some(d);
    YearFieldSpelling(y, d.year);
    MonthFieldSpelling(m, d.month);
    DayFieldSpelling(dd, d.day);
    assert s == y + "-" + m + "-" + dd;
  }

  /** A four-character year, a dash, a month of one or two characters
      without a dash in second place, a dash and the rest: `ParseDate`
      splits the string exactly there. */
  lemma SplitDate(s: string, y: string, m: string, dd: string)
    requires |y| == 4 && 1 <= |m| <= 2 && (|m| == 2 ==> m[1] != '-')
    requires s == y + "-" + m + "-" + dd
    ensures ParseDate(s) == CombineDate(y, m, dd)
  {
    assert s[..4] == y && s[4] == '-';
    var rest := s[5..];
    assert rest == m + "-" + dd;
    assert rest[|m|] == '-';
    assert rest[..|m|] == m && rest[|m| + 1..] == dd;
    if |m| == 2 {
      assert rest[1] == m[1];
    }
  }

  lemma ParseDateComplete(s: string, d: Date)
    requires ValidDate(d) && s in DateSpellings(d)
    ensures ParseDate(s) == Some(d)
  {
    var y := Pad4(d.year);
    var m, dd :| m in FieldSpellings(d.month) && dd in DaySpellings(d.day) && s == y + "-" + m + "-" + dd;
    YearFieldSpelling(y, d.year);
    MonthFieldSpelling(m, d.month);
    DayFieldSpelling(dd, d.day);
    assert |m| == 2 ==> IsDigit(m[1]);
    SplitDate(s, y, m, dd);
  }

  /** `ParseDate` reads `s` as `d` exactly when `s` is one of the spellings
      of `d`: four year digits, a dash, one or two month digits, a dash,
      and the day as `%d` writes it. */
  lemma ParseDateSpellings(s: string, d: Date)
    requires ValidDate(d)
    ensures ParseDate(s) == Some(d) <==> s in DateSpellings(d)
  {
    if ParseDate(s) == Some(d) {
      ParseDateSound(s, d);
    }
    if s in DateSpellings(d) {
      ParseDateComplete(s, d);
    }
  }

  /** Python's comparison of dates: year, then month, then day. */
  predicate DateBefore(a: Date, b: Date) {
    a.year < b.year || (a.year == b.year && (a.month < b.month || (a.month == b.month && a.day < b.day)))
  }
}
