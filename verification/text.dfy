/** Character-level string helpers: Python's `str.strip()` and ASCII decimal digits. */
module Text {
  import opened Wrappers

  /** The characters Python's `str.isspace()` accepts, which `str.strip()` removes. */
  predicate IsSpace(c: char) {
    || ('\U{0009}' <= c <= '\U{000D}')
    || ('\U{001C}' <= c <= '\U{0020}')
    || c == '\U{0085}'
    || c == '\U{00A0}'
    || c == '\U{1680}'
    || ('\U{2000}' <= c <= '\U{200A}')
    || c == '\U{2028}'
    || c == '\U{2029}'
    || c == '\U{202F}'
    || c == '\U{205F}'
    || c == '\U{3000}'
  }

  /** `s[i..j]` is what is left once only whitespace is cut from both ends. */
  ghost predicate CutsOnlySpace(s: string, i: int, j: int) {
    && 0 <= i <= j <= |s|
    && (forall k :: 0 <= k < i ==> IsSpace(s[k]))
    && (forall k :: j <= k < |s| ==> IsSpace(s[k]))
  }

  /** Removes leading whitespace. */
  function TrimStart(s: string): (r: string)
    ensures |r| <= |s|
  {
    if |s| > 0 && IsSpace(s[0]) then TrimStart(s[1..]) else s
  }

  /** Removes trailing whitespace. */
  function TrimEnd(s: string): (r: string)
    ensures |r| <= |s|
  {
    if |s| > 0 && IsSpace(s[|s| - 1]) then TrimEnd(s[..|s| - 1]) else s
  }

  /** Python's `str.strip()`. */
  function Trim(s: string): (r: string)
    ensures |r| <= |s|
  {
    TrimEnd(TrimStart(s))
  }

  /** `TrimStart` drops a prefix of whitespace and stops at the first other
      character. */
  lemma {:induction false} TrimStartSpec(s: string)
    ensures var i := |s| - |TrimStart(s)|;
      && TrimStart(s) == s[i..]
      && (forall k :: 0 <= k < i ==> IsSpace(s[k]))
      && (TrimStart(s) == [] || !IsSpace(TrimStart(s)[0]))
  {
    if |s| > 0 && IsSpace(s[0]) {
      var t := s[1..];
      TrimStartSpec(t);
      var i := |s| - |TrimStart(s)|;
      assert TrimStart(s) == TrimStart(t);
      assert t[i - 1..] == s[i..];
      forall k | 0 <= k < i ensures IsSpace(s[k]) {
        if k > 0 {
          assert s[k] == t[k - 1];
        }
      }
    }
  }

  /** `TrimEnd` drops a suffix of whitespace and stops at the last other
      character. */
  lemma {:induction false} TrimEndSpec(s: string)
    ensures var j := |TrimEnd(s)|;
      && TrimEnd(s) == s[..j]
      && (forall k :: j <= k < |s| ==> IsSpace(s[k]))
      && (TrimEnd(s) == [] || !IsSpace(TrimEnd(s)[j - 1]))
  {
    if |s| > 0 && IsSpace(s[|s| - 1]) {
      var t := s[..|s| - 1];
      TrimEndSpec(t);
      var j := |TrimEnd(s)|;
      assert TrimEnd(s) == TrimEnd(t);
      assert t[..j] == s[..j];
      forall k | j <= k < |s| ensures IsSpace(s[k]) {
        if k < |s| - 1 {
          assert s[k] == t[k];
        }
      }
    }
  }

  /** Cutting a whitespace suffix off a whitespace-free-prefix suffix of `s`
      leaves an infix of `s` followed only by whitespace. */
  lemma InfixCut(s: string, i: nat, u: string, j: nat)
    requires i <= |s| && u == s[i..] && j <= |u|
    requires forall k :: j <= k < |u| ==> IsSpace(u[k])
    ensures u[..j] == s[i..i + j]
    ensures forall k :: i + j <= k < |s| ==> IsSpace(s[k])
  {
    forall k | i + j <= k < |s| ensures IsSpace(s[k]) {
      assert s[k] == u[k - i];
    }
  }

  /** Where `strip()` cuts: its result starts `|s| - |TrimStart(s)|` characters in. */
  lemma TrimCuts(s: string)
    ensures var i := |s| - |TrimStart(s)|;
      && i + |Trim(s)| <= |s|
      && CutsOnlySpace(s, i, i + |Trim(s)|)
      && Trim(s) == s[i..i + |Trim(s)|]
  {
    var u := TrimStart(s);
    TrimStartSpec(s);
    TrimEndSpec(u);
    InfixCut(s, |s| - |u|, u, |TrimEnd(u)|);
  }

  /** `strip()` returns an infix of `s` that neither starts nor ends with
      whitespace, everything it cuts away being whitespace. */
  lemma TrimSpec(s: string)
    ensures exists i, j :: CutsOnlySpace(s, i, j) && Trim(s) == s[i..j]
    ensures Trim(s) == [] || (!IsSpace(Trim(s)[0]) && !IsSpace(Trim(s)[|Trim(s)| - 1]))
  {
    TrimCuts(s);
    var u := TrimStart(s);
    var r := Trim(s);
    if r != [] {
      assert !IsSpace(r[0]) by {
        TrimStartSpec(s);
        TrimEndSpec(u);
        assert r[0] == u[0];
      }
      assert !IsSpace(r[|r| - 1]) by {
        TrimEndSpec(u);
      }
    }
  }

  /** A string with no whitespace at either end is its own trim. */
  lemma TrimOfTrimmed(s: string)
    requires s == [] || (!IsSpace(s[0]) && !IsSpace(s[|s| - 1]))
    ensures Trim(s) == s
  {
    var r := Trim(s);
    TrimSpec(s);
    var i, j :| CutsOnlySpace(s, i, j) && r == s[i..j];
    if s != [] {
      assert !IsSpace(s[0]) && !IsSpace(s[|s| - 1]);
    }
  }

  /** `strip()` is idempotent. */
  lemma TrimIdempotent(s: string)
    ensures Trim(Trim(s)) == Trim(s)
  {
    TrimSpec(s);
    TrimOfTrimmed(Trim(s));
  }

  predicate IsDigit(c: char) {
    '0' <= c <= '9'
  }

  function DigitValue(c: char): (d: nat)
    requires IsDigit(c)
    ensures d < 10
  {
    c as int - '0' as int
  }

  function DigitChar(d: nat): (c: char)
    requires d < 10
    ensures IsDigit(c) && DigitValue(c) == d
  {
    ('0' as int + d) as char
  }

  /** The value of a numeric field of one or two ASCII digits. */
  function ShortNumber(u: string): (r: Option<nat>)
    ensures r.Some? ==> r.value < 100
    ensures r.Some? && |u| == 1 ==> r.value < 10
  {
    if |u| == 1 && IsDigit(u[0]) then Some(DigitValue(u[0]))
    else if |u| == 2 && IsDigit(u[0]) && IsDigit(u[1]) then Some(DigitValue(u[0]) * 10 + DigitValue(u[1]))
    else None
  }

  /** `n` written with exactly two digits, zero padded. */
  function Pad2(n: nat): (r: string)
    requires n < 100
    ensures |r| == 2 && IsDigit(r[0]) && IsDigit(r[1])
    ensures DigitValue(r[0]) == n / 10 && DigitValue(r[1]) == n % 10
    ensures ShortNumber(r) == Some(n)
  {
    [DigitChar(n / 10), DigitChar(n % 10)]
  }

  /** The spellings a one-or-two-digit strptime field (`%H`, `%M`, `%m`,
      `%d`) accepts for the value `n`: two digits, and one digit when
      `n < 10`. */
  function FieldSpellings(n: nat): set<string>
    requires n < 100
  {
    {Pad2(n)} + (if n < 10 then {[DigitChar(n)]} else {})
  }

  /** A field of one or two digits denotes `n` only if it is `Pad2(n)` or,
      for `n < 10`, the single digit of `n`; and both of those denote `n`. */
  lemma ShortNumberSpelling(u: string, n: nat)
    requires n < 100
    ensures ShortNumber(u) == Some(n) <==> u == Pad2(n) || (n < 10 && u == [DigitChar(n)])
  {
    if ShortNumber(u) == Some(n) && |u| == 2 {
      var a, b := DigitValue(u[0]), DigitValue(u[1]);
      assert n == a * 10 + b;
      assert n / 10 == a && n % 10 == b;
      assert u == Pad2(n);
    }
  }
}
