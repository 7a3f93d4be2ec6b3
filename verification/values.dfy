/** Cleaning of one checklist result value for display (app.py `normalize_value`). */
module Values {
  import opened Wrappers
  import opened Text

  /** Trimmed values that stand for "no reading". The match is exact:
      `"N/a"` or `"--"` are kept. */
  predicate IsPlaceholder(s: string) {
    s == "-" || s == "N/A" || s == "n/a"
  }

  /** Python's `s.replace(",", ".")`: every comma becomes a period and
      every other character stays where it is. */
  function ReplaceCommas(s: string): (r: string)
    ensures |r| == |s|
    ensures forall k :: 0 <= k < |s| ==> r[k] == (if s[k] == ',' then '.' else s[k])
  {
    if s == [] then []
    else [if s[0] == ',' then '.' else s[0]] + ReplaceCommas(s[1..])
  }

  /** The displayed form of a raw result value: absent and placeholder
      values are empty, any other value is trimmed and its decimal commas
      become periods. */
  function NormalizeValue(v: Option<string>): (r: string)
    ensures v.None? ==> r == ""
    ensures v.Some? ==> (r == "" <==> Trim(v.value) == "" || IsPlaceholder(Trim(v.value)))
    ensures v.Some? && !IsPlaceholder(Trim(v.value)) ==>
      |r| == |Trim(v.value)|
      && forall k :: 0 <= k < |r| ==>
           r[k] == (if Trim(v.value)[k] == ',' then '.' else Trim(v.value)[k])
    ensures ',' !in r
  {
    match v
    case None => ""
    case Some(raw) =>
      var s := Trim(raw);
      TrimSpec(raw);
      if IsPlaceholder(s) then "" else ReplaceCommas(s)
  }

  /** Where the output has no period, the input had no comma to replace. */
  lemma ReplaceCommasWithoutPeriod(s: string)
    requires '.' !in ReplaceCommas(s)
    ensures ReplaceCommas(s) == s
  {
    var r := ReplaceCommas(s);
    forall k | 0 <= k < |s| ensures r[k] == s[k] {
      assert r[k] in r;
    }
  }

  /** A string without commas is left alone. */
  lemma ReplaceCommasWithoutComma(s: string)
    requires ',' !in s
    ensures ReplaceCommas(s) == s
  {
    var r := ReplaceCommas(s);
    forall k | 0 <= k < |s| ensures r[k] == s[k] {
      assert s[k] in s;
    }
  }

  /** Replacing commas never turns a kept value into a placeholder. */
  lemma ReplaceCommasKeepsNonPlaceholder(s: string)
    requires !IsPlaceholder(s)
    ensures !IsPlaceholder(ReplaceCommas(s))
  {
    if IsPlaceholder(ReplaceCommas(s)) {
      ReplaceCommasWithoutPeriod(s);
    }
  }

  /** Normalizing an already normalized value changes nothing: the result
      has no surrounding whitespace, no comma, and is never a placeholder. */
  lemma NormalizeIdempotent(v: Option<string>)
    ensures NormalizeValue(Some(NormalizeValue(v))) == NormalizeValue(v)
  {
    var r := NormalizeValue(v);
    if r != [] {
      var s := Trim(v.value);
      TrimSpec(v.value);
      assert r == ReplaceCommas(s) && !IsPlaceholder(s);
      assert !IsSpace(r[0]) && !IsSpace(r[|r| - 1]) by {
        assert !IsSpace(s[0]) && !IsSpace(s[|s| - 1]);
      }
      TrimOfTrimmed(r);
      ReplaceCommasKeepsNonPlaceholder(s);
      ReplaceCommasWithoutComma(r);
    }
  }
}
