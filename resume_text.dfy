/** The sanitising and formatting helpers of the résumé PDF export script: a value
    that is absent, blank, or a "TODO" placeholder counts as not provided. */
module ResumeText {
  import opened Wrappers
  import opened Strings

  /** A scalar field of the résumé record: absent (`null` or `undefined`) or a string. */
  type Value = Option<string>

  /** The placeholder marker. */
  const Todo: string := "TODO"

  /** Shown for a range whose end is missing. */
  const Present: string := "至今"

  /** The separator between the two ends of a date range (an en dash between spaces). */
  const RangeSep: string := " – "

  predicate IsTodo(v: Value) {
    v.Some? && StartsWith(Trim(v.value), Todo)
  }

  /** The trimmed text, or "" when the value is absent, blank or a placeholder. */
  function SafeText(v: Value): (r: string)
    ensures r == "" || (v.Some? && r == Trim(v.value))
    ensures r == "" <==> v.None? || AllSpace(v.value) || StartsWith(Trim(v.value), Todo)
    ensures Trimmed(r) && !StartsWith(r, Todo)
  {
    match v
    case None => ""
    case Some(x) =>
      TrimEmptyIff(x);
      var s := Trim(x);
      // `isTodo(s)` trims `s` again, which changes nothing (TrimIdempotent).
      if s == "" || StartsWith(s, Todo) then "" else s
  }

  lemma {:induction false} IsTodoOfAbsent()
    ensures !IsTodo(None)
  {
  }

  lemma {:induction false} SafeTextIdempotent(v: Value)
    ensures SafeText(Some(SafeText(v))) == SafeText(v)
  {
    var r := SafeText(v);
    if r != "" {
      TrimOfTrimmed(r);
    }
  }

  /** A non-placeholder text followed by anything whose first character cannot
      continue the word "TODO" still does not start with "TODO". */
  lemma {:induction false} NoTodoPrefix(a: string, rest: string)
    requires a != "" && !StartsWith(a, Todo)
    requires rest == [] || (rest[0] != 'O' && rest[0] != 'D')
    ensures !StartsWith(a + rest, Todo)
  {
    var x := a + rest;
    if |a| >= 4 {
      assert x[..4] == a[..4];
    } else if rest != [] {
      assert x[|a|] == rest[0];
      assert Todo[|a|] != rest[0];
    }
  }

  /** A clean text passes through sanitising unchanged. */
  lemma {:induction false} SafeTextOfClean(x: string)
    requires x != "" && Trimmed(x) && !StartsWith(x, Todo)
    ensures SafeText(Some(x)) == x
  {
    TrimOfTrimmed(x);
  }

  /** "start – end", "start – 至今", "end", or "", after sanitising both ends. */
  function FormatRange(start: Value, end: Value): (r: string)
    ensures r == "" <==> SafeText(start) == "" && SafeText(end) == ""
    ensures SafeText(start) == "" ==> r == SafeText(end)
    ensures !StartsWith(r, Todo)
  {
    var s := SafeText(start);
    var e := SafeText(end);
    if s != "" && e != "" then
      var r := s + RangeSep + e;
      NoTodoPrefix(s, RangeSep + e);
      assert r == s + (RangeSep + e);
      r
    else if s != "" then
      var r := s + RangeSep + Present;
      NoTodoPrefix(s, RangeSep + Present);
      assert r == s + (RangeSep + Present);
      r
    else e
  }

  /** A present start is followed by the separator; a present end closes the range,
      and a missing end is shown as "至今". */
  lemma {:induction false} FormatRangeShape(start: Value, end: Value)
    ensures var s, e, r := SafeText(start), SafeText(end), FormatRange(start, end);
      && (s != "" ==> StartsWith(r, s + RangeSep))
      && (s != "" && e == "" ==> EndsWith(r, RangeSep + Present))
      && (e != "" ==> EndsWith(r, e))
  {
    var s, e, r := SafeText(start), SafeText(end), FormatRange(start, end);
    if s != "" && e != "" {
      assert r[..|s + RangeSep|] == s + RangeSep;
      assert r[|r| - |e|..] == e;
    } else if s != "" {
      assert r[..|s + RangeSep|] == s + RangeSep;
      assert r[|r| - |RangeSep + Present|..] == RangeSep + Present;
    }
  }

  /** The literal cases of the date-range table. */
  lemma {:induction false} FormatRangeBoth()
    ensures FormatRange(Some("2020"), Some("2022")) == "2020 – 2022"
  {
    SafeTextOfClean("2020");
    SafeTextOfClean("2022");
  }

  lemma {:induction false} FormatRangeOpenEnded()
    ensures FormatRange(Some("2020"), None) == "2020 – 至今"
  {
    SafeTextOfClean("2020");
  }

  lemma {:induction false} FormatRangeEndOnly()
    ensures FormatRange(None, Some("2022")) == "2022"
  {
    SafeTextOfClean("2022");
  }

  lemma {:induction false} FormatRangePlaceholders()
    ensures FormatRange(Some(" TODO: year "), Some("  ")) == ""
  {
    var t := " TODO: year ";
    assert t == " " + "TODO: year" + " ";
    TrimPadded(" ", "TODO: year", " ");
    assert AllSpace("  ");
  }
}
