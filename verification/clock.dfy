/** Times of day: app.py `parse_hhmm`, `minutes` and the shift-relative
    ordering of `sort_donetime_list`. */
module Clock {
  import opened Wrappers
  import opened Text
  import opened Sorting

  /** Python's `datetime.time` as far as the source uses it: seconds and
      microseconds are always zero after parsing `"%H:%M"`. */
  datatype TimeOfDay = TimeOfDay(hour: nat, minute: nat) {
    predicate Valid() {
      hour < 24 && minute < 60
    }
  }

  /** `datetime.min.time()`, also what `strptime("00:00", "%H:%M")` yields. */
  const Midnight := TimeOfDay(0, 0)

  const MinutesPerDay := 24 * 60

  /** One `%H` or `%M` field: one or two ASCII digits whose value is below
      `bound`. The strptime patterns `2[0-3]|[0-1]\d|\d` and `[0-5]\d|\d`
      accept exactly these strings for bounds 24 and 60. */
  function ParseField(u: string, bound: nat): (r: Option<nat>)
    ensures r.Some? ==> r.value < bound
  {
    match ShortNumber(u)
    case Some(n) => if n < bound then Some(n) else None
    case None => None
  }

  function CombineFields(h: string, m: string): (r: Option<TimeOfDay>)
    ensures r.Some? ==> r.value.Valid()
  {
    match (ParseField(h, 24), ParseField(m, 60))
    case (Some(hour), Some(minute)) => Some(TimeOfDay(hour, minute))
    case _ => None
  }

  /** app.py `parse_hhmm`: `strptime(s.strip(), "%H:%M")`, with `None` for
      every string the format rejects. Fields are one or two digits, so the
      colon is the second or the third character. */
  function ParseHHMM(s: string): (r: Option<TimeOfDay>)
    ensures r.Some? ==> r.value.Valid()
  {
    var u := Trim(s);
    if |u| >= 2 && u[1] == ':' then CombineFields(u[..1], u[2..])
    else if |u| >= 3 && u[2] == ':' then CombineFields(u[..2], u[3..])
    else None
  }

  /** Every string (before trimming) `"%H:%M"` reads as the time `t`. */
  ghost function Spellings(t: TimeOfDay): set<string>
    requires t.Valid()
  {
    set h, m | h in FieldSpellings(t.hour) && m in FieldSpellings(t.minute) :: h + ":" + m
  }

  lemma ParseFieldSpelling(u: string, bound: nat, n: nat)
    requires n < bound <= 100
    ensures ParseField(u, bound) == Some(n) <==> u in FieldSpellings(n)
  {
    ShortNumberSpelling(u, n);
  }

  lemma ParseHHMMSound(s: string, t: TimeOfDay)
    requires t.Valid() && ParseHHMM(s) == Some(t)
    ensures Trim(s) in Spellings(t)
  {
    var u := Trim(s);
    var i := if u[1] == ':' then 1 else 2;
    var h, m := u[..i], u[i + 1..];
    assert CombineFields(h, m) == Some(t);
    ParseFieldSpelling(h, 24, t.hour);
    ParseFieldSpelling(m, 60, t.minute);
    assert u == h + ":" + m;
  }

  lemma ParseHHMMComplete(s: string, t: TimeOfDay)
    requires t.Valid() && Trim(s) in Spellings(t)
    ensures ParseHHMM(s) == Some(t)
  {
    var u := Trim(s);
    var h, m :| h in FieldSpellings(t.hour) && m in FieldSpellings(t.minute) && u == h + ":" + m;
    ParseFieldSpelling(h, 24, t.hour);
    ParseFieldSpelling(m, 60, t.minute);
    assert u[|h|] == ':';
    assert u[..|h|] == h && u[|h| + 1..] == m;
    if |h| == 2 {
      assert u[1] == h[1] && IsDigit(h[1]);
    }
  }

  /** `parse_hhmm` reads `s` as `t` exactly when the trimmed `s` is one of
      the spellings of `t`: the parser is neither more lenient nor stricter
      than the `"%H:%M"` grammar. */
  lemma ParseHHMMSpellings(s: string, t: TimeOfDay)
    requires t.Valid()
    ensures ParseHHMM(s) == Some(t) <==> Trim(s) in Spellings(t)
  {
    if ParseHHMM(s) == Some(t) {
      ParseHHMMSound(s, t);
    }
    if Trim(s) in Spellings(t) {
      ParseHHMMComplete(s, t);
    }
  }

  /** The canonical `"HH:MM"` form of a time. */
  function FormatHHMM(t: TimeOfDay): string
    requires t.Valid()
  {
    Pad2(t.hour) + ":" + Pad2(t.minute)
  }

  /** Formatting then parsing gives the time back. */
  lemma ParseFormatRoundTrip(t: TimeOfDay)
    requires t.Valid()
    ensures ParseHHMM(FormatHHMM(t)) == Some(t)
  {
    var u := FormatHHMM(t);
    assert Pad2(t.hour) in FieldSpellings(t.hour) && Pad2(t.minute) in FieldSpellings(t.minute);
    assert u in Spellings(t);
    TrimOfTrimmed(u);
    ParseHHMMSpellings(u, t);
  }

  /** The fallback `"00:00"` parses to midnight. */
  lemma ParseMidnight()
    ensures ParseHHMM("00:00") == Some(Midnight)
  {
    ParseFormatRoundTrip(Midnight);
    assert DigitChar(0) == '0';
    assert Pad2(0) == "00";
    assert FormatHHMM(Midnight) == "00:00";
  }

  /** app.py `minutes`: the minute of the day. */
  function Minutes(t: TimeOfDay): (m: nat)
    ensures t.Valid() ==> m < MinutesPerDay
  {
    t.hour * 60 + t.minute
  }

  /** The minute of the day determines the time: hour and minute are its
      quotient and remainder by 60. */
  lemma MinutesInverse(t: TimeOfDay)
    requires t.Valid()
    ensures Minutes(t) / 60 == t.hour && Minutes(t) % 60 == t.minute
  {
  }

  /** Comparing minutes of the day is Python's comparison of `time` values,
      hour first and then minute. */
  lemma MinutesOrder(a: TimeOfDay, b: TimeOfDay)
    requires a.Valid() && b.Valid()
    ensures Minutes(a) < Minutes(b) <==> a.hour < b.hour || (a.hour == b.hour && a.minute < b.minute)
    ensures Minutes(a) == Minutes(b) <==> a == b
  {
  }

  /** `parse_hhmm(s) or 00:00`. A `time` is never falsy, so only `None` falls back. */
  function ParseOrMidnight(s: string): (t: TimeOfDay)
    ensures t.Valid()
    ensures ParseHHMM(s).None? ==> t == Midnight
    ensures ParseHHMM(s).Some? ==> t == ParseHHMM(s).value
  {
    ParseHHMM(s).GetOr(Midnight)
  }

  /** The minute of the day a shift starts: its entry in `starts`, with
      `"00:00"` for an unknown shift and midnight for an unparsable entry. */
  function StartMinute(shift: string, starts: map<string, string>): (m: nat)
    ensures m < MinutesPerDay
    ensures shift !in starts ==> m == 0
    ensures shift in starts && ParseHHMM(starts[shift]).Some? ==> m == Minutes(ParseHHMM(starts[shift]).value)
    ensures shift in starts && ParseHHMM(starts[shift]).None? ==> m == 0
  {
    var entry := if shift in starts then starts[shift] else "00:00";
    ParseMidnight();
    Minutes(ParseOrMidnight(entry))
  }

  /** A clock showing minute `s`, advanced by `d` minutes, shows minute `m`. */
  predicate Advances(s: int, d: int, m: int) {
    (s + d) % MinutesPerDay == m
  }

  /** `(m - s) % 1440`: the minutes a clock started at minute `s` needs to
      reach minute `m`, wrapping past midnight. Python's `%` with a positive
      modulus agrees with Dafny's. */
  function Elapsed(s: nat, m: nat): (k: int)
    requires s < MinutesPerDay && m < MinutesPerDay
    ensures 0 <= k < MinutesPerDay
    ensures Advances(s, k, m)
    ensures m >= s ==> k == m - s
    ensures m < s ==> k == m - s + MinutesPerDay
  {
    var n := MinutesPerDay;
    if m >= s then
      assert (m - s) % n == m - s;
      (m - s) % n
    else
      assert (m - s) % n == m - s + n;
      assert (s + (m - s + n)) % n == m;
      (m - s) % n
  }

  /** No other delay in `[0, 1440)` takes the clock from `s` to `m`. */
  lemma ElapsedUnique(s: nat, m: nat, d: int)
    requires s < MinutesPerDay && m < MinutesPerDay
    requires 0 <= d < MinutesPerDay && Advances(s, d, m)
    ensures d == Elapsed(s, m)
  {
    var n := MinutesPerDay;
    if s + d < n {
      assert (s + d) % n == s + d;
    } else {
      assert (s + d) % n == s + d - n;
    }
  }

  /** The sort key of `sort_donetime_list`: minutes elapsed from the shift's
      start to the donetime. An unparsable donetime counts as 00:00. */
  function ShiftKey(shift: string, starts: map<string, string>, donetime: string): (k: int)
    ensures 0 <= k < MinutesPerDay
    ensures Advances(StartMinute(shift, starts), k, Minutes(ParseOrMidnight(donetime)))
  {
    Elapsed(StartMinute(shift, starts), Minutes(ParseOrMidnight(donetime)))
  }

  /** The key is the unique elapsed time in `[0, 1440)`: starting the clock at
      the shift's start and advancing it by `d` minutes reaches the donetime
      only for `d == ShiftKey(...)`. */
  lemma ShiftKeyUnique(shift: string, starts: map<string, string>, donetime: string, d: int)
    requires 0 <= d < MinutesPerDay
    requires Advances(StartMinute(shift, starts), d, Minutes(ParseOrMidnight(donetime)))
    ensures d == ShiftKey(shift, starts, donetime)
  {
    ElapsedUnique(StartMinute(shift, starts), Minutes(ParseOrMidnight(donetime)), d);
  }

  /** The key function `sort_donetime_list` sorts by. */
  function DonetimeKey(shift: string, starts: map<string, string>): string -> int {
    t => ShiftKey(shift, starts, t)
  }

  /** app.py `sort_donetime_list`: the donetimes in shift order, a stable
      sort by `ShiftKey`. */
  function SortDonetimes(times: seq<string>, shift: string, starts: map<string, string>): (r: seq<string>)
    ensures multiset(r) == multiset(times)
    ensures forall i, j :: 0 <= i < j < |r| ==> ShiftKey(shift, starts, r[i]) <= ShiftKey(shift, starts, r[j])
    ensures forall k :: KeyClass(r, DonetimeKey(shift, starts), k) == KeyClass(times, DonetimeKey(shift, starts), k)
  {
    SortByClasses(times, DonetimeKey(shift, starts));
    SortByPermutes(times, DonetimeKey(shift, starts));
    SortBy(times, DonetimeKey(shift, starts))
  }

  /** `sorted` is stable: donetimes with equal shift keys leave the sort in
      the order they entered it. */
  lemma SortDonetimesStable(times: seq<string>, shift: string, starts: map<string, string>, x: string, y: string)
    requires Precedes(SortDonetimes(times, shift, starts), x, y)
    requires ShiftKey(shift, starts, x) == ShiftKey(shift, starts, y)
    ensures Precedes(times, x, y)
  {
    var key := DonetimeKey(shift, starts);
    assert key(x) == key(y);
    SortByStable(times, key, x, y);
  }
}
