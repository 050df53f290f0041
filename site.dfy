/** The pure rules inside the résumé web page: date ranges, tag normalisation, the
    sorted tag list of the projects, the project filter, whether a PDF is offered,
    and the texts of the hero and of the experience cards. Unlike the PDF export, the
    page only drops falsy values (absent or ""); placeholders stay, except for tags. */
module Site {
  import opened Wrappers
  import opened Strings
  import ResumeText
  import ResumeLines
  import opened Paginate

  type Value = Option<string>

  /** The text of a value in a template: its string, or "" when absent. */
  function Text(v: Value): string {
    if v.Some? then v.value else ""
  }

  /** JavaScript truthiness of a value: present and not "". */
  predicate Truthy(v: Value) {
    Text(v) != ""
  }

  const BarChar: char := '｜'
  const Bar: string := [BarChar]

  // ---------------------------------------------------------------------------
  // formatRange

  /** "start – end", "start – 至今", "end", or "" when both ends are falsy. */
  function FormatRange(start: Value, end: Value): (r: string)
    ensures r == "" <==> !Truthy(start) && !Truthy(end)
    ensures !Truthy(start) ==> r == Text(end)
    ensures Truthy(start) ==> StartsWith(r, Text(start) + ResumeText.RangeSep)
    ensures Truthy(start) && Truthy(end) ==> EndsWith(r, ResumeText.RangeSep + Text(end))
    ensures Truthy(start) && !Truthy(end) ==> EndsWith(r, ResumeText.RangeSep + ResumeText.Present)
  {
    var s, e := Text(start), Text(end);
    if s == "" && e == "" then ""
    else if s != "" && e != "" then
      var r := s + ResumeText.RangeSep + e;
      assert r[..|s + ResumeText.RangeSep|] == s + ResumeText.RangeSep;
      assert r == s + (ResumeText.RangeSep + e);
      r
    else if s != "" then
      var r := s + ResumeText.RangeSep + ResumeText.Present;
      assert r[..|s + ResumeText.RangeSep|] == s + ResumeText.RangeSep;
      assert r == s + (ResumeText.RangeSep + ResumeText.Present);
      r
    else e
  }

  /** On values the export has already sanitised, the page and the export agree. */
  lemma {:induction false} FormatRangeAgrees(start: Value, end: Value)
    ensures FormatRange(Some(ResumeText.SafeText(start)), Some(ResumeText.SafeText(end)))
         == ResumeText.FormatRange(start, end)
  {
  }

  /** The page keeps a placeholder that the export drops. */
  lemma {:induction false} FormatRangeKeepsTodo()
    ensures FormatRange(Some("TODO"), None) == "TODO" + ResumeText.RangeSep + ResumeText.Present
    ensures ResumeText.FormatRange(Some("TODO"), None) == ""
  {
    var t := "TODO";
    TrimOfTrimmed(t);
  }

  // ---------------------------------------------------------------------------
  // normalizeTag

  /** `c` matches the pattern letter `lower` of a case-insensitive regular expression
      (without the `u` flag, only ASCII letters fold onto ASCII letters). */
  predicate FoldsTo(c: char, lower: char)
    requires 'a' <= lower <= 'z'
  {
    c == lower || c as int == lower as int - 32
  }

  /** `/^todo/i.test(t)`. */
  predicate TodoAnyCase(t: string) {
    |t| >= 4 && FoldsTo(t[0], 't') && FoldsTo(t[1], 'o') && FoldsTo(t[2], 'd') && FoldsTo(t[3], 'o')
  }

  /** The trimmed tag, or "" for a falsy or blank tag or one that starts with "todo"
      in any letter case. */
  function NormalizeTag(tag: Value): (r: string)
    ensures r == "" <==> tag.None? || AllSpace(tag.value) || TodoAnyCase(Trim(tag.value))
    ensures r != "" ==> r == Trim(tag.value)
    ensures Trimmed(r) && !TodoAnyCase(r)
  {
    if !Truthy(tag) then ""
    else
      var t := Trim(tag.value);
      TrimEmptyIff(tag.value);
      if t == "" then ""
      else if TodoAnyCase(t) then ""
      else if StartsWith(t, ResumeText.Todo) then
        TodoCaseCovers(t);
        ""
      else t
  }

  /** The second test of the source, `startsWith("TODO")`, is covered by the first. */
  lemma {:induction false} TodoCaseCovers(t: string)
    requires StartsWith(t, ResumeText.Todo)
    ensures TodoAnyCase(t)
  {
    assert t[0] == t[..4][0] == 'T' && t[1] == t[..4][1] == 'O';
    assert t[2] == t[..4][2] == 'D' && t[3] == t[..4][3] == 'O';
  }

  lemma {:induction false} NormalizeTagIdempotent(tag: Value)
    ensures NormalizeTag(Some(NormalizeTag(tag))) == NormalizeTag(tag)
  {
    var r := NormalizeTag(tag);
    if r != "" {
      TrimOfTrimmed(r);
    }
  }

  /** A tag the page keeps is also kept, unchanged, by the export's `safeText`; the
      converse fails for a lower-case placeholder. */
  lemma {:induction false} NormalizeTagStricter(tag: Value)
    requires NormalizeTag(tag) != ""
    ensures ResumeText.SafeText(tag) == NormalizeTag(tag)
  {
    var t := Trim(tag.value);
    if StartsWith(t, ResumeText.Todo) {
      TodoCaseCovers(t);
    }
  }

  lemma {:induction false} NormalizeTagLowerTodo()
    ensures NormalizeTag(Some("todo")) == ""
    ensures ResumeText.SafeText(Some("todo")) == "todo"
  {
    var t := "todo";
    assert Trimmed(t);
    TrimOfTrimmed(t);
    assert t[0] != 'T';
  }

  // ---------------------------------------------------------------------------
  // collectTags

  /** The fields of a project the page's rules look at: its title stands for the card,
      and its tags (an empty array when `tags` is not an array). */
  datatype SiteProject = SiteProject(title: Value, tags: seq<Value>)

  /** `tags.map(normalizeTag)`. */
  function Normalized(tags: seq<Value>): (r: seq<string>)
    ensures |r| == |tags| && forall i | 0 <= i < |tags| :: r[i] == NormalizeTag(tags[i])
  {
    if tags == [] then [] else Normalized(tags[..|tags| - 1]) + [NormalizeTag(tags[|tags| - 1])]
  }

  /** `tags.map(normalizeTag).filter(Boolean)`. */
  function KeptTags(tags: seq<Value>): seq<string> {
    NonEmpty(Normalized(tags))
  }

  function ProjectTags(p: SiteProject): seq<string> {
    KeptTags(p.tags)
  }

  /** The kept tags of every project, project after project. */
  function AllTags(ps: seq<SiteProject>): seq<string> {
    FlatMap(ps, ProjectTags)
  }

  /** Code-point order on strings, standing in for the `zh-CN` collation. */
  predicate Less(a: string, b: string) {
    if a == [] then b != []
    else if b == [] then false
    else a[0] < b[0] || (a[0] == b[0] && Less(a[1..], b[1..]))
  }

  lemma {:induction false} LessIrreflexive(a: string)
    ensures !Less(a, a)
  {
    if a != [] {
      LessIrreflexive(a[1..]);
    }
  }

  lemma {:induction false} LessTransitive(a: string, b: string, c: string)
    requires Less(a, b) && Less(b, c)
    ensures Less(a, c)
  {
    if a != [] && a[0] == b[0] && b[0] == c[0] {
      LessTransitive(a[1..], b[1..], c[1..]);
    }
  }

  lemma {:induction false} LessTotal(a: string, b: string)
    requires a != b
    ensures Less(a, b) || Less(b, a)
  {
    if a != [] && b != [] && a[0] == b[0] {
      assert a == [a[0]] + a[1..] && b == [b[0]] + b[1..];
      LessTotal(a[1..], b[1..]);
    }
  }

  lemma {:induction false} LessAsymmetric(a: string, b: string)
    requires Less(a, b)
    ensures !Less(b, a)
  {
    if a != [] && a[0] == b[0] {
      LessAsymmetric(a[1..], b[1..]);
    }
  }

  /** What is not below `b` is not below anything below `b` either. */
  lemma {:induction false} NotLessThrough(a: string, b: string, c: string)
    requires Less(a, b) && !Less(c, b)
    ensures !Less(c, a)
  {
    if c != b {
      LessTotal(c, b);
      LessTransitive(a, b, c);
    }
    LessAsymmetric(a, c);
  }

  predicate Sorted(s: seq<string>) {
    forall i, j | 0 <= i < j < |s| :: !Less(s[j], s[i])
  }

  predicate Distinct(s: seq<string>) {
    forall i, j | 0 <= i < j < |s| :: s[i] != s[j]
  }

  /** `sorted` with `x` put just before the first element above it. */
  function Insert(sorted: seq<string>, x: string): (r: seq<string>)
    requires Sorted(sorted)
    ensures multiset(r) == multiset(sorted) + multiset{x}
    ensures Sorted(r)
  {
    if sorted == [] then [x]
    else if Less(x, sorted[0]) then
      forall j | 0 <= j < |sorted| ensures !Less(sorted[j], x) {
        if j == 0 {
          LessIrreflexive(sorted[0]);
        }
        NotLessThrough(x, sorted[0], sorted[j]);
      }
      [x] + sorted
    else
      var rest := Insert(sorted[1..], x);
      assert sorted == [sorted[0]] + sorted[1..];
      forall j | 0 <= j < |rest| ensures !Less(rest[j], sorted[0]) {
        assert rest[j] in multiset(rest);
        if rest[j] == x {
        } else {
          assert rest[j] in multiset(sorted[1..]);
          var k :| 0 <= k < |sorted[1..]| && sorted[1..][k] == rest[j];
          assert sorted[k + 1] == rest[j];
        }
      }
      [sorted[0]] + rest
  }

  /** `Array.prototype.sort` with the comparator: a sorted permutation. */
  function Sort(xs: seq<string>): (r: seq<string>)
    ensures multiset(r) == multiset(xs)
    ensures Sorted(r)
  {
    if xs == [] then []
    else
      var init := xs[..|xs| - 1];
      assert xs == init + [xs[|xs| - 1]];
      Insert(Sort(init), xs[|xs| - 1])
  }

  lemma {:induction false} DistinctCount(s: seq<string>, x: string)
    requires Distinct(s)
    ensures multiset(s)[x] <= 1
  {
    if s != [] {
      var init := s[..|s| - 1];
      assert s == init + [s[|s| - 1]];
      DistinctCount(init, x);
      if x == s[|s| - 1] {
        assert x !in init;
      }
    }
  }

  lemma {:induction false} DistinctOfPermutation(xs: seq<string>, ys: seq<string>)
    requires Distinct(xs) && multiset(xs) == multiset(ys)
    ensures Distinct(ys)
  {
    forall i, j | 0 <= i < j < |ys| ensures ys[i] != ys[j] {
      if ys[i] == ys[j] {
        var x := ys[i];
        assert ys == ys[..j] + [ys[j]] + ys[j + 1..];
        assert x in multiset(ys[..j]) by {
          assert ys[..j][i] == x;
        }
        assert multiset(ys)[x] >= 2;
        DistinctCount(xs, x);
      }
    }
  }

  /** In a sorted list without repeats every element is below the next ones. */
  lemma {:induction false} StrictlySorted(s: seq<string>)
    requires Sorted(s) && Distinct(s)
    ensures forall i, j | 0 <= i < j < |s| :: Less(s[i], s[j])
  {
    forall i, j | 0 <= i < j < |s| ensures Less(s[i], s[j]) {
      LessTotal(s[i], s[j]);
    }
  }

  /** `collectTags`: every kept tag of every project, once each, in ascending order. A
      JavaScript `Set` keeps insertion order, so it is a sequence without repeats here. */
  method CollectTags(projects: seq<SiteProject>) returns (tags: seq<string>)
    ensures forall t :: t in tags <==> t in AllTags(projects)
    ensures forall i, j | 0 <= i < j < |tags| :: Less(tags[i], tags[j])
  {
    var tagSet: seq<string> := [];
    for i := 0 to |projects|
      invariant Distinct(tagSet)
      invariant forall t :: t in tagSet <==> t in AllTags(projects[..i])
    {
      assert projects[..i + 1][..i] == projects[..i];
      assert AllTags(projects[..i + 1]) == AllTags(projects[..i]) + ProjectTags(projects[i]);
      tagSet := AddAll(tagSet, ProjectTags(projects[i]));
    }
    assert projects[..|projects|] == projects;
    tags := Sort(tagSet);
    DistinctOfPermutation(tagSet, tags);
    StrictlySorted(tags);
    forall t ensures t in tags <==> t in tagSet {
      assert t in tags <==> t in multiset(tags);
    }
  }

  /** `set.add(t)` for each `t` of `kept`. */
  method AddAll(set0: seq<string>, kept: seq<string>) returns (set1: seq<string>)
    requires Distinct(set0)
    ensures Distinct(set1)
    ensures forall t :: t in set1 <==> t in set0 || t in kept
  {
    set1 := set0;
    for j := 0 to |kept|
      invariant Distinct(set1)
      invariant forall t :: t in set1 <==> t in set0 || t in kept[..j]
    {
      assert kept[..j + 1] == kept[..j] + [kept[j]];
      if kept[j] !in set1 {
        set1 := set1 + [kept[j]];
      }
    }
    assert kept[..|kept|] == kept;
  }

  // ---------------------------------------------------------------------------
  // The project filter

  /** Project `p` carries `tag` once its tags are normalised. */
  predicate HasTag(p: SiteProject, tag: string) {
    tag in Normalized(p.tags)
  }

  function Matching(items: seq<SiteProject>, tag: string): (r: seq<SiteProject>)
    ensures |r| <= |items|
    ensures forall p :: p in r <==> p in items && HasTag(p, tag)
  {
    if items == [] then []
    else
      var last := items[|items| - 1];
      Matching(items[..|items| - 1], tag) + (if HasTag(last, tag) then [last] else [])
  }

  /** The projects shown: all of them when no tag is active, otherwise those that
      carry the active tag. */
  function Filtered(items: seq<SiteProject>, activeTag: string): (r: seq<SiteProject>)
    ensures activeTag == "" ==> r == items
    ensures forall p :: p in r <==> p in items && (activeTag == "" || HasTag(p, activeTag))
  {
    if activeTag == "" then items else Matching(items, activeTag)
  }

  /** The filter keeps the order of the projects: filtering a concatenation filters
      each part. */
  lemma {:induction false} MatchingAppend(a: seq<SiteProject>, b: seq<SiteProject>, tag: string)
    ensures Matching(a + b, tag) == Matching(a, tag) + Matching(b, tag)
    decreases |b|
  {
    if b == [] {
      assert a + b == a;
    } else {
      var binit := b[..|b| - 1];
      assert (a + b)[..|a + b| - 1] == a + binit;
      MatchingAppend(a, binit, tag);
    }
  }

  /** Choosing a tag offered by the select never empties the list. */
  lemma {:induction false} CollectedTagMatches(items: seq<SiteProject>, tag: string)
    requires tag in AllTags(items)
    ensures Filtered(items, tag) != []
  {
    FlatMapMembers(items, ProjectTags, tag);
    var i :| 0 <= i < |items| && tag in ProjectTags(items[i]);
    assert tag != "";
    assert HasTag(items[i], tag);
    assert items[i] in Filtered(items, tag);
  }

  // ---------------------------------------------------------------------------
  // applyDownloadLinks

  /** The PDF link is offered when the path is truthy, not blank and holds no "TODO". */
  predicate HasPdf(pdfPath: Value) {
    Truthy(pdfPath) && !AllSpace(pdfPath.value) && !Contains(pdfPath.value, ResumeText.Todo)
  }

  /** An offered path survives the export's sanitising as its trimmed self. */
  lemma {:induction false} HasPdfSafe(pdfPath: Value)
    requires HasPdf(pdfPath)
    ensures ResumeText.SafeText(pdfPath) == Trim(pdfPath.value) != ""
  {
    TrimEmptyIff(pdfPath.value);
    if StartsWith(Trim(pdfPath.value), ResumeText.Todo) {
      ContainsOfTrimmedPrefix(pdfPath.value, ResumeText.Todo);
    }
  }

  /** What the trimmed text starts with occurs in the text. */
  lemma {:induction false} ContainsOfTrimmedPrefix(s: string, p: string)
    requires StartsWith(Trim(s), p)
    ensures Contains(s, p)
  {
    var t := Trim(s);
    var k := SkipSpaces(s, 0);
    TrimSlice(s);
    assert s[k..k + |p|] == t[..|p|];
    assert OccursAt(s, p, k);
    ContainsAt(s, p);
  }

  lemma {:induction false} HasPdfExamples()
    ensures HasPdf(Some("resume.pdf"))
    ensures !HasPdf(Some("TODO.pdf")) && !HasPdf(Some("   ")) && !HasPdf(Some("")) && !HasPdf(None)
  {
    ResumePdfOffered();
    PlaceholdersNotOffered();
  }

  lemma {:induction false} ResumePdfOffered()
    ensures HasPdf(Some("resume.pdf"))
  {
    ResumePathOffered("resume.pdf");
  }

  lemma {:induction false} PlaceholdersNotOffered()
    ensures !HasPdf(Some("TODO.pdf")) && !HasPdf(Some("   ")) && !HasPdf(Some("")) && !HasPdf(None)
  {
    assert StartsWith("TODO.pdf", ResumeText.Todo);
  }

  /** A path without a `T` and with a non-space first character is offered. */
  lemma {:induction false} ResumePathOffered(s: string)
    requires s != [] && !IsSpace(s[0]) && 'T' !in s
    ensures HasPdf(Some(s))
  {
    NotContainsTodo(s);
  }

  lemma {:induction false} NotContainsTodo(s: string)
    requires 'T' !in s
    ensures !Contains(s, ResumeText.Todo)
    decreases |s|
  {
    if |s| > 0 {
      assert !StartsWith(s, ResumeText.Todo) by {
        if |s| >= 4 {
          assert s[0] != 'T';
        }
      }
      assert forall c | c in s[1..] :: c in s;
      NotContainsTodo(s[1..]);
    }
  }

  // ---------------------------------------------------------------------------
  // renderHero and renderExperience

  const NameHint: string := "TODO：姓名"
  const HeadlineHint: string := "TODO：一句话定位"
  const SubtitleHint: string := "TODO：补充基本信息（地点/邮箱/电话）"

  /** `a ?? b` on strings: only an absent value falls back. */
  function OrElse(v: Value, fallback: string): string {
    if v.Some? then v.value else fallback
  }

  /** "name｜headline", with a placeholder for an absent part; an empty part stays empty. */
  function HeroTitle(b: ResumeLines.Basics): (r: string)
    ensures BarChar !in OrElse(b.name, NameHint) && BarChar !in OrElse(b.headline, HeadlineHint)
      ==> Split(r, BarChar) == [OrElse(b.name, NameHint), OrElse(b.headline, HeadlineHint)]
  {
    var n, h := OrElse(b.name, NameHint), OrElse(b.headline, HeadlineHint);
    if BarChar !in n && BarChar !in h then
      SplitJoin([n, h], BarChar);
      assert Join([n, h], Bar) == n + Bar + h;
      n + Bar + h
    else n + Bar + h
  }

  /** The truthy items among location, e-mail and phone, in that order. */
  function SubtitleParts(b: ResumeLines.Basics): seq<string> {
    NonEmpty([Text(b.location), Text(b.email), Text(b.phone)])
  }

  /** Those items joined by "｜", or the hint when there are none. */
  function HeroSubtitle(b: ResumeLines.Basics): (r: string)
    ensures SubtitleParts(b) == [] ==> r == SubtitleHint
    ensures SubtitleParts(b) != [] ==> r != "" && StartsWith(r, SubtitleParts(b)[0])
  {
    var parts := SubtitleParts(b);
    if |parts| > 0 then
      JoinStartsWithFirst(parts, Bar);
      Join(parts, Bar)
    else SubtitleHint
  }

  /** Without "｜" inside the items, the subtitle splits back into them. */
  lemma {:induction false} HeroSubtitleSplits(b: ResumeLines.Basics)
    requires SubtitleParts(b) != []
    requires BarChar !in Text(b.location) && BarChar !in Text(b.email) && BarChar !in Text(b.phone)
    ensures Split(HeroSubtitle(b), BarChar) == SubtitleParts(b)
  {
    var parts := [Text(b.location), Text(b.email), Text(b.phone)];
    var i :| 0 <= i < |SubtitleParts(b)|;
    assert SubtitleParts(b)[0] in parts;
    SplitJoinPresent(parts, BarChar);
  }

  /** `highlights.slice(0, 5)`: the first five at most. */
  function HeroHighlights<T>(highlights: seq<T>): (r: seq<T>)
    ensures |r| == if |highlights| < 5 then |highlights| else 5
    ensures forall i | 0 <= i < |r| :: r[i] == highlights[i]
  {
    if |highlights| <= 5 then highlights else highlights[..5]
  }

  /** The meta line of an experience card: the truthy ones among organisation, role,
      date range and location, in that order, joined by "｜". */
  function ExperienceMeta(it: ResumeLines.Experience): (r: string)
    ensures r == "" <==>
      !Truthy(it.org) && !Truthy(it.role) && !Truthy(it.start) && !Truthy(it.end) && !Truthy(it.location)
    ensures Truthy(it.org) ==> StartsWith(r, Text(it.org))
  {
    var parts := [Text(it.org), Text(it.role), FormatRange(it.start, it.end), Text(it.location)];
    JoinPresentEmpty(parts, Bar);
    assert (forall i | 0 <= i < |parts| :: parts[i] == "")
      <==> parts[0] == "" && parts[1] == "" && parts[2] == "" && parts[3] == "";
    if Truthy(it.org) then
      JoinStartsWithFirst(NonEmpty(parts), Bar);
      JoinPresent(parts, Bar)
    else JoinPresent(parts, Bar)
  }

  /** Without "｜" inside the fields, the meta line splits back into the truthy fields. */
  lemma {:induction false} ExperienceMetaSplits(it: ResumeLines.Experience)
    requires ExperienceMeta(it) != ""
    requires BarChar !in Text(it.org) && BarChar !in Text(it.role)
      && BarChar !in FormatRange(it.start, it.end) && BarChar !in Text(it.location)
    ensures Split(ExperienceMeta(it), BarChar)
         == NonEmpty([Text(it.org), Text(it.role), FormatRange(it.start, it.end), Text(it.location)])
  {
    var parts := [Text(it.org), Text(it.role), FormatRange(it.start, it.end), Text(it.location)];
    JoinPresentEmpty(parts, Bar);
    SplitJoinPresent(parts, BarChar);
  }
}
