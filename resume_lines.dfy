/** `buildLines` of the résumé PDF export: the résumé record becomes a stream of
    styled lines (a title, section headings, entry headings, meta lines, bullets and
    two sizes of vertical space) in a fixed section order, with every absent, blank
    or placeholder value left out. */
module ResumeLines {
  import opened Wrappers
  import opened Strings
  import opened ResumeText

  /** A `{label, url}` pair (`label` is the field `caption` here); an entry that is `null` has both fields absent. */
  datatype Link = Link(caption: Value, url: Value)

  /** `basics`; a missing `basics` object has every field absent. A `links` value that
      is not an array is the empty sequence, as `Array.isArray` makes it. */
  datatype Basics = Basics(name: Value, headline: Value, location: Value,
                           email: Value, phone: Value, links: seq<Link>)

  datatype Experience = Experience(title: Value, org: Value, role: Value, start: Value,
                                   end: Value, location: Value,
                                   summary: seq<Value>, achievements: seq<Value>)

  datatype Project = Project(name: Value, context: Value, actions: seq<Value>,
                             result: Value, evidence: seq<Link>, reflection: Value)

  datatype SkillGroup = SkillGroup(group: Value, items: seq<Value>)

  datatype Education = Education(school: Value, degree: Value, major: Value,
                                 start: Value, end: Value)

  datatype Resume = Resume(basics: Basics, highlights: seq<Value>,
                           experience: seq<Experience>, projects: seq<Project>,
                           skills: seq<SkillGroup>, education: seq<Education>,
                           certifications: seq<Value>)

  datatype Kind = H1 | H2 | H3 | Meta | Bullet | Spacer | SpacerSm

  /** One entry of the line stream; the two spacer kinds carry no text (""). */
  datatype Line = Line(kind: Kind, text: string)

  const Bar: string := "｜"
  const NoName: string := "（未填写姓名）"
  const LinksHeading: string := "链接"
  const HighlightsHeading: string := "核心亮点"
  const ExperienceHeading: string := "经历"
  const ProjectsHeading: string := "项目"
  const SkillsHeading: string := "技能"
  const EducationHeading: string := "教育 / 证书"
  const CertificatesTitle: string := "证书"
  const ContextPrefix: string := "背景："
  const ResultPrefix: string := "结果："
  const EvidenceTitle: string := "证据："
  const ReflectionPrefix: string := "复盘："

  const SpacerLine: Line := Line(Spacer, "")
  const SpacerSmLine: Line := Line(SpacerSm, "")

  /** JavaScript's `a || b` on strings. */
  function Or(a: string, b: string): string {
    if a != "" then a else b
  }

  /** A line of kind `k` holding `t`, if `t` is non-empty. */
  function Opt(k: Kind, t: string): seq<Line> {
    if t != "" then [Line(k, t)] else []
  }

  // ---------------------------------------------------------------------------
  // The line stream, section by section

  /** A link as one text: "label: url", the bare url, or "" when it has no url. */
  function LinkText(l: Link): string {
    var caption := SafeText(l.caption);
    var url := SafeText(l.url);
    if url == "" then "" else if caption != "" then caption + ": " + url else url
  }

  /** `links.map(...).filter(Boolean)`. */
  function LinkTexts(ls: seq<Link>): seq<string> {
    NonEmpty(seq(|ls|, i requires 0 <= i < |ls| => LinkText(ls[i])))
  }

  /** A bullet for each value that survives `safeText`. */
  function BulletsOf(vs: seq<Value>): seq<Line> {
    if vs == [] then []
    else BulletsOf(vs[..|vs| - 1]) + Opt(Bullet, SafeText(vs[|vs| - 1]))
  }

  /** A bullet for each of the given texts. */
  function TextBullets(ts: seq<string>): seq<Line> {
    if ts == [] then [] else TextBullets(ts[..|ts| - 1]) + [Line(Bullet, ts[|ts| - 1])]
  }

  /** The lines of the entries of a section, one entry after another. */
  function Entries<T>(xs: seq<T>, f: T -> seq<Line>): seq<Line> {
    if xs == [] then [] else Entries(xs[..|xs| - 1], f) + f(xs[|xs| - 1])
  }

  /** A section: a spacer, the heading, then its body. */
  function Section(heading: string, body: seq<Line>): seq<Line> {
    [SpacerLine, Line(H2, heading)] + body
  }

  function NameLine(b: Basics): string {
    var name := Or(SafeText(b.name), NoName);
    var headline := SafeText(b.headline);
    if headline != "" then name + Bar + headline else name
  }

  function ContactLine(b: Basics): string {
    JoinPresent([SafeText(b.location), SafeText(b.email), SafeText(b.phone)], Bar)
  }

  function HeaderLines(b: Basics): seq<Line> {
    [Line(H1, NameLine(b))] + Opt(Meta, ContactLine(b))
  }

  function LinksSection(b: Basics): seq<Line> {
    var ts := LinkTexts(b.links);
    if |ts| > 0 then Section(LinksHeading, TextBullets(ts)) else []
  }

  function HighlightsSection(hs: seq<Value>): seq<Line> {
    if |hs| > 0 then Section(HighlightsHeading, BulletsOf(hs)) else []
  }

  function ExperienceTitle(it: Experience): string {
    Or(SafeText(it.title), JoinPresent([SafeText(it.org), SafeText(it.role)], Bar))
  }

  function ExperienceMeta(it: Experience): string {
    JoinPresent([FormatRange(it.start, it.end), SafeText(it.location)], Bar)
  }

  function ExperienceLines(it: Experience): seq<Line> {
    Opt(H3, ExperienceTitle(it)) + Opt(Meta, ExperienceMeta(it))
      + BulletsOf(it.summary + it.achievements) + [SpacerSmLine]
  }

  function ExperienceSection(xs: seq<Experience>): seq<Line> {
    if |xs| > 0 then Section(ExperienceHeading, Entries(xs, ExperienceLines)) else []
  }

  /** A meta line "prefix + text", if the text survives `safeText`. */
  function Prefixed(prefix: string, v: Value): seq<Line> {
    var t := SafeText(v);
    if t != "" then [Line(Meta, prefix + t)] else []
  }

  function EvidenceLines(ev: seq<Link>): seq<Line> {
    var ts := LinkTexts(ev);
    if |ts| > 0 then [Line(Meta, EvidenceTitle)] + TextBullets(ts) else []
  }

  function ProjectLines(p: Project): seq<Line> {
    Opt(H3, SafeText(p.name)) + Prefixed(ContextPrefix, p.context) + BulletsOf(p.actions)
      + Prefixed(ResultPrefix, p.result) + EvidenceLines(p.evidence)
      + Prefixed(ReflectionPrefix, p.reflection) + [SpacerSmLine]
  }

  function ProjectsSection(ps: seq<Project>): seq<Line> {
    if |ps| > 0 then Section(ProjectsHeading, Entries(ps, ProjectLines)) else []
  }

  function SkillLines(g: SkillGroup): seq<Line> {
    Opt(H3, SafeText(g.group)) + BulletsOf(g.items) + [SpacerSmLine]
  }

  function SkillsSection(gs: seq<SkillGroup>): seq<Line> {
    if |gs| > 0 then Section(SkillsHeading, Entries(gs, SkillLines)) else []
  }

  function EducationMeta(e: Education): string {
    JoinPresent([SafeText(e.degree), SafeText(e.major), FormatRange(e.start, e.end)], Bar)
  }

  function EducationLines(e: Education): seq<Line> {
    Opt(H3, SafeText(e.school)) + Opt(Meta, EducationMeta(e)) + [SpacerSmLine]
  }

  function CertificateLines(cs: seq<Value>): seq<Line> {
    if |cs| > 0 then [Line(H3, CertificatesTitle)] + BulletsOf(cs) else []
  }

  function EducationSection(es: seq<Education>, cs: seq<Value>): seq<Line> {
    if |es| > 0 || |cs| > 0 then Section(EducationHeading, Entries(es, EducationLines) + CertificateLines(cs))
    else []
  }

  /** The whole line stream `buildLines` returns. */
  function LinesOf(r: Resume): seq<Line> {
    HeaderLines(r.basics) + LinksSection(r.basics) + HighlightsSection(r.highlights)
      + ExperienceSection(r.experience) + ProjectsSection(r.projects)
      + SkillsSection(r.skills) + EducationSection(r.education, r.certifications)
  }

  // ---------------------------------------------------------------------------
  // The builder: each step appends to the one growing `lines` array

  lemma {:induction false} BulletsOfSnoc(vs: seq<Value>, i: nat)
    requires i < |vs|
    ensures BulletsOf(vs[..i + 1]) == BulletsOf(vs[..i]) + Opt(Bullet, SafeText(vs[i]))
  {
    assert vs[..i + 1][..i] == vs[..i];
  }

  method PushBullets(lines: seq<Line>, vs: seq<Value>) returns (out: seq<Line>)
    ensures out == lines + BulletsOf(vs)
  {
    out := lines;
    for i := 0 to |vs|
      invariant out == lines + BulletsOf(vs[..i])
    {
      BulletsOfSnoc(vs, i);
      var t := SafeText(vs[i]);
      if t != "" {
        out := out + [Line(Bullet, t)];
      }
    }
    assert vs[..|vs|] == vs;
  }

  method PushTextBullets(lines: seq<Line>, ts: seq<string>) returns (out: seq<Line>)
    ensures out == lines + TextBullets(ts)
  {
    out := lines;
    for i := 0 to |ts|
      invariant out == lines + TextBullets(ts[..i])
    {
      assert ts[..i + 1][..i] == ts[..i];
      out := out + [Line(Bullet, ts[i])];
    }
    assert ts[..|ts|] == ts;
  }

  /** Regrouping appended pieces; stated on opaque pieces so that the solver does
      not look inside the texts. */
  lemma {:induction false} Assoc3(l: seq<Line>, a: seq<Line>, b: seq<Line>)
    ensures l + (a + b) == l + a + b
  {
  }

  lemma {:induction false} Assoc4(l: seq<Line>, a: seq<Line>, b: seq<Line>, c: seq<Line>)
    ensures l + (a + b + c) == l + a + b + c
  {
  }

  lemma {:induction false} Assoc5(l: seq<Line>, a: seq<Line>, b: seq<Line>, c: seq<Line>, d: seq<Line>)
    ensures l + (a + b + c + d) == l + a + b + c + d
  {
  }

  lemma {:induction false} Assoc8(l: seq<Line>, a: seq<Line>, b: seq<Line>, c: seq<Line>, d: seq<Line>,
               e: seq<Line>, f: seq<Line>, g: seq<Line>)
    ensures l + (a + b + c + d + e + f + g) == l + a + b + c + d + e + f + g
  {
  }

  lemma {:induction false} EntriesSnoc<T>(xs: seq<T>, f: T -> seq<Line>, i: nat)
    requires i < |xs|
    ensures Entries(xs[..i + 1], f) == Entries(xs[..i], f) + f(xs[i])
  {
    assert xs[..i + 1][..i] == xs[..i];
  }

  method PushOpt(lines: seq<Line>, k: Kind, t: string) returns (out: seq<Line>)
    ensures out == lines + Opt(k, t)
  {
    out := lines;
    if t != "" {
      out := out + [Line(k, t)];
    }
  }

  method PushExperience(lines: seq<Line>, it: Experience) returns (out: seq<Line>)
    ensures out == lines + ExperienceLines(it)
  {
    var title := ExperienceTitle(it);
    var meta := ExperienceMeta(it);
    out := PushOpt(lines, H3, title);
    out := PushOpt(out, Meta, meta);
    var bullets := it.summary + it.achievements;
    out := PushBullets(out, bullets);
    out := out + [SpacerSmLine];
    Assoc5(lines, Opt(H3, title), Opt(Meta, meta), BulletsOf(bullets), [SpacerSmLine]);
  }

  method PushPrefixed(lines: seq<Line>, prefix: string, v: Value) returns (out: seq<Line>)
    ensures out == lines + Prefixed(prefix, v)
  {
    var t := SafeText(v);
    out := lines;
    if t != "" {
      out := out + [Line(Meta, prefix + t)];
    }
  }

  method PushEvidence(lines: seq<Line>, evidence: seq<Link>) returns (out: seq<Line>)
    ensures out == lines + EvidenceLines(evidence)
  {
    var ev := LinkTexts(evidence);
    out := lines;
    if |ev| > 0 {
      var mid := out + [Line(Meta, EvidenceTitle)];
      out := PushTextBullets(mid, ev);
      Assoc3(lines, [Line(Meta, EvidenceTitle)], TextBullets(ev));
    }
  }

  method PushProject(lines: seq<Line>, p: Project) returns (out: seq<Line>)
    ensures out == lines + ProjectLines(p)
  {
    var name := SafeText(p.name);
    out := PushOpt(lines, H3, name);
    out := PushPrefixed(out, ContextPrefix, p.context);
    out := PushBullets(out, p.actions);
    out := PushPrefixed(out, ResultPrefix, p.result);
    out := PushEvidence(out, p.evidence);
    out := PushPrefixed(out, ReflectionPrefix, p.reflection);
    out := out + [SpacerSmLine];
    Assoc8(lines, Opt(H3, name), Prefixed(ContextPrefix, p.context), BulletsOf(p.actions),
           Prefixed(ResultPrefix, p.result), EvidenceLines(p.evidence),
           Prefixed(ReflectionPrefix, p.reflection), [SpacerSmLine]);
  }

  method PushSkill(lines: seq<Line>, g: SkillGroup) returns (out: seq<Line>)
    ensures out == lines + SkillLines(g)
  {
    var group := SafeText(g.group);
    out := PushOpt(lines, H3, group);
    out := PushBullets(out, g.items);
    out := out + [SpacerSmLine];
    Assoc4(lines, Opt(H3, group), BulletsOf(g.items), [SpacerSmLine]);
  }

  method PushEducation(lines: seq<Line>, e: Education) returns (out: seq<Line>)
    ensures out == lines + EducationLines(e)
  {
    var school := SafeText(e.school);
    var meta := EducationMeta(e);
    out := PushOpt(lines, H3, school);
    out := PushOpt(out, Meta, meta);
    out := out + [SpacerSmLine];
    Assoc4(lines, Opt(H3, school), Opt(Meta, meta), [SpacerSmLine]);
  }

  method PushExperienceSection(lines: seq<Line>, xs: seq<Experience>) returns (out: seq<Line>)
    ensures out == lines + ExperienceSection(xs)
  {
    out := lines;
    if |xs| > 0 {
      var heading := [SpacerLine, Line(H2, ExperienceHeading)];
      var head := lines + heading;
      out := head;
      for i := 0 to |xs|
        invariant out == head + Entries(xs[..i], ExperienceLines)
      {
        EntriesSnoc(xs, ExperienceLines, i);
        Assoc3(head, Entries(xs[..i], ExperienceLines), ExperienceLines(xs[i]));
        out := PushExperience(out, xs[i]);
      }
      assert xs[..|xs|] == xs;
      Assoc3(lines, heading, Entries(xs, ExperienceLines));
    }
  }

  method PushProjectsSection(lines: seq<Line>, ps: seq<Project>) returns (out: seq<Line>)
    ensures out == lines + ProjectsSection(ps)
  {
    out := lines;
    if |ps| > 0 {
      var heading := [SpacerLine, Line(H2, ProjectsHeading)];
      var head := lines + heading;
      out := head;
      for i := 0 to |ps|
        invariant out == head + Entries(ps[..i], ProjectLines)
      {
        EntriesSnoc(ps, ProjectLines, i);
        Assoc3(head, Entries(ps[..i], ProjectLines), ProjectLines(ps[i]));
        out := PushProject(out, ps[i]);
      }
      assert ps[..|ps|] == ps;
      Assoc3(lines, heading, Entries(ps, ProjectLines));
    }
  }

  method PushSkillsSection(lines: seq<Line>, gs: seq<SkillGroup>) returns (out: seq<Line>)
    ensures out == lines + SkillsSection(gs)
  {
    out := lines;
    if |gs| > 0 {
      var heading := [SpacerLine, Line(H2, SkillsHeading)];
      var head := lines + heading;
      out := head;
      for i := 0 to |gs|
        invariant out == head + Entries(gs[..i], SkillLines)
      {
        EntriesSnoc(gs, SkillLines, i);
        Assoc3(head, Entries(gs[..i], SkillLines), SkillLines(gs[i]));
        out := PushSkill(out, gs[i]);
      }
      assert gs[..|gs|] == gs;
      Assoc3(lines, heading, Entries(gs, SkillLines));
    }
  }

  method PushCertificates(lines: seq<Line>, cs: seq<Value>) returns (out: seq<Line>)
    ensures out == lines + CertificateLines(cs)
  {
    out := lines;
    if |cs| > 0 {
      var mid := out + [Line(H3, CertificatesTitle)];
      out := PushBullets(mid, cs);
      Assoc3(lines, [Line(H3, CertificatesTitle)], BulletsOf(cs));
    }
  }

  method PushEducationEntries(lines: seq<Line>, es: seq<Education>) returns (out: seq<Line>)
    ensures out == lines + Entries(es, EducationLines)
  {
    out := lines;
    for i := 0 to |es|
      invariant out == lines + Entries(es[..i], EducationLines)
    {
      EntriesSnoc(es, EducationLines, i);
      Assoc3(lines, Entries(es[..i], EducationLines), EducationLines(es[i]));
      out := PushEducation(out, es[i]);
    }
    assert es[..|es|] == es;
  }

  method PushEducationSection(lines: seq<Line>, es: seq<Education>, cs: seq<Value>) returns (out: seq<Line>)
    ensures out == lines + EducationSection(es, cs)
  {
    out := lines;
    if |es| > 0 || |cs| > 0 {
      var heading := [SpacerLine, Line(H2, EducationHeading)];
      out := PushEducationEntries(lines + heading, es);
      out := PushCertificates(out, cs);
      Assoc4(lines, heading, Entries(es, EducationLines), CertificateLines(cs));
      Assoc3(heading, Entries(es, EducationLines), CertificateLines(cs));
    }
  }

  method PushLinks(lines: seq<Line>, b: Basics) returns (out: seq<Line>)
    ensures out == lines + LinksSection(b)
  {
    var linkLines := LinkTexts(b.links);
    out := lines;
    if |linkLines| > 0 {
      var heading := [SpacerLine, Line(H2, LinksHeading)];
      out := PushTextBullets(lines + heading, linkLines);
      Assoc3(lines, heading, TextBullets(linkLines));
    }
  }

  method PushHighlights(lines: seq<Line>, hs: seq<Value>) returns (out: seq<Line>)
    ensures out == lines + HighlightsSection(hs)
  {
    out := lines;
    if |hs| > 0 {
      var heading := [SpacerLine, Line(H2, HighlightsHeading)];
      out := PushBullets(lines + heading, hs);
      Assoc3(lines, heading, BulletsOf(hs));
    }
  }

  /** `buildLines`. */
  method BuildLines(r: Resume) returns (lines: seq<Line>)
    ensures lines == LinesOf(r)
  {
    var b := r.basics;
    lines := PushOpt([Line(H1, NameLine(b))], Meta, ContactLine(b));
    lines := PushLinks(lines, b);
    lines := PushHighlights(lines, r.highlights);
    lines := PushExperienceSection(lines, r.experience);
    lines := PushProjectsSection(lines, r.projects);
    lines := PushSkillsSection(lines, r.skills);
    lines := PushEducationSection(lines, r.education, r.certifications);
  }

  // ---------------------------------------------------------------------------
  // What the line stream promises

  /** Lines that carry a text, as opposed to the two kinds of vertical space. */
  predicate IsText(l: Line) {
    l.kind != Spacer && l.kind != SpacerSm
  }

  /** No text line is empty or starts with the placeholder marker. */
  predicate Clean(ls: seq<Line>) {
    forall i | 0 <= i < |ls| :: IsText(ls[i]) ==> ls[i].text != "" && !StartsWith(ls[i].text, Todo)
  }

  /** Every section heading comes right after a spacer. */
  predicate Spaced(ls: seq<Line>) {
    forall i | 0 <= i < |ls| :: ls[i].kind == H2 ==> i > 0 && ls[i - 1].kind == Spacer
  }

  /** The texts of the section headings, in order. */
  function Headings(ls: seq<Line>): seq<string> {
    if ls == [] then [] else (if ls[0].kind == H2 then [ls[0].text] else []) + Headings(ls[1..])
  }

  function CountKind(ls: seq<Line>, k: Kind): nat {
    if ls == [] then 0 else (if ls[0].kind == k then 1 else 0) + CountKind(ls[1..], k)
  }

  /** A run of lines that may follow the title: clean, spaced, no title, and not
      starting with a heading that would then lack its spacer. */
  predicate Block(ls: seq<Line>) {
    Clean(ls) && Spaced(ls) && CountKind(ls, H1) == 0 && (ls == [] || ls[0].kind != H2)
  }

  /** The body of an entry or section: a block without headings. */
  predicate Body(ls: seq<Line>) {
    Block(ls) && Headings(ls) == []
  }

  /** The headings the stream holds for a résumé: each section's heading when its
      source list is non-empty (the links section: when some link has a url). */
  function ExpectedHeadings(r: Resume): seq<string> {
    (if |LinkTexts(r.basics.links)| > 0 then [LinksHeading] else [])
      + (if |r.highlights| > 0 then [HighlightsHeading] else [])
      + (if |r.experience| > 0 then [ExperienceHeading] else [])
      + (if |r.projects| > 0 then [ProjectsHeading] else [])
      + (if |r.skills| > 0 then [SkillsHeading] else [])
      + (if |r.education| > 0 || |r.certifications| > 0 then [EducationHeading] else [])
  }

  lemma {:induction false} HeadingsAppend(a: seq<Line>, b: seq<Line>)
    ensures Headings(a + b) == Headings(a) + Headings(b)
  {
    if a != [] {
      assert (a + b)[1..] == a[1..] + b;
      HeadingsAppend(a[1..], b);
    } else {
      assert a + b == b;
    }
  }

  lemma {:induction false} CountAppend(a: seq<Line>, b: seq<Line>, k: Kind)
    ensures CountKind(a + b, k) == CountKind(a, k) + CountKind(b, k)
  {
    if a != [] {
      assert (a + b)[1..] == a[1..] + b;
      CountAppend(a[1..], b, k);
    } else {
      assert a + b == b;
    }
  }

  lemma {:induction false} NoHeadings(ls: seq<Line>)
    requires Headings(ls) == []
    ensures forall i | 0 <= i < |ls| :: ls[i].kind != H2
  {
    if ls != [] {
      NoHeadings(ls[1..]);
      assert forall i | 1 <= i < |ls| :: ls[i] == ls[1..][i - 1];
    }
  }

  lemma {:induction false} NoTitles(ls: seq<Line>)
    requires CountKind(ls, H1) == 0
    ensures forall i | 0 <= i < |ls| :: ls[i].kind != H1
  {
    if ls != [] {
      NoTitles(ls[1..]);
      assert forall i | 1 <= i < |ls| :: ls[i] == ls[1..][i - 1];
    }
  }

  lemma {:induction false} BlockAppend(a: seq<Line>, b: seq<Line>)
    requires Block(a) && Block(b)
    ensures Block(a + b)
    ensures Headings(a + b) == Headings(a) + Headings(b)
    ensures CountKind(a + b, SpacerSm) == CountKind(a, SpacerSm) + CountKind(b, SpacerSm)
  {
    HeadingsAppend(a, b);
    CountAppend(a, b, SpacerSm);
    CountAppend(a, b, H1);
    var c := a + b;
    forall i | 0 <= i < |c| && c[i].kind == H2 ensures i > 0 && c[i - 1].kind == Spacer {
      if i >= |a| {
        assert c[i] == b[i - |a|];
        if i == |a| {
          assert false;
        }
        assert c[i - 1] == b[i - |a| - 1];
      } else {
        assert c[i] == a[i] && c[i - 1] == a[i - 1];
      }
    }
  }

  lemma {:induction false} BodyAppend(a: seq<Line>, b: seq<Line>)
    requires Body(a) && Body(b)
    ensures Body(a + b)
    ensures CountKind(a + b, SpacerSm) == CountKind(a, SpacerSm) + CountKind(b, SpacerSm)
  {
    BlockAppend(a, b);
  }

  /** A single line that is neither the title nor a heading, with a clean text. */
  lemma {:induction false} OptBody(k: Kind, t: string)
    requires k != H1 && k != H2
    requires !StartsWith(t, Todo)
    ensures Body(Opt(k, t))
    ensures CountKind(Opt(k, t), SpacerSm) == if k == SpacerSm && t != "" then 1 else 0
  {
  }

  lemma {:induction false} SpacerSmBody()
    ensures Body([SpacerSmLine]) && CountKind([SpacerSmLine], SpacerSm) == 1
  {
  }

  lemma {:induction false} BulletsOfBody(vs: seq<Value>)
    ensures Body(BulletsOf(vs)) && CountKind(BulletsOf(vs), SpacerSm) == 0
  {
    if vs != [] {
      var init := vs[..|vs| - 1];
      BulletsOfBody(init);
      OptBody(Bullet, SafeText(vs[|vs| - 1]));
      BodyAppend(BulletsOf(init), Opt(Bullet, SafeText(vs[|vs| - 1])));
    }
  }

  predicate CleanTexts(ts: seq<string>) {
    forall i | 0 <= i < |ts| :: ts[i] != "" && !StartsWith(ts[i], Todo)
  }

  lemma {:induction false} TextBulletsBody(ts: seq<string>)
    requires CleanTexts(ts)
    ensures Body(TextBullets(ts)) && CountKind(TextBullets(ts), SpacerSm) == 0
    ensures |TextBullets(ts)| == |ts|
  {
    if ts != [] {
      var init := ts[..|ts| - 1];
      assert CleanTexts(init) by {
        forall i | 0 <= i < |init| ensures init[i] != "" && !StartsWith(init[i], Todo) {
          assert init[i] == ts[i];
        }
      }
      TextBulletsBody(init);
      OptBody(Bullet, ts[|ts| - 1]);
      BodyAppend(TextBullets(init), [Line(Bullet, ts[|ts| - 1])]);
    }
  }

  lemma {:induction false} LinkTextClean(l: Link)
    ensures !StartsWith(LinkText(l), Todo)
    ensures LinkText(l) != "" <==> SafeText(l.url) != ""
  {
    var caption := SafeText(l.caption);
    var url := SafeText(l.url);
    if url != "" && caption != "" {
      NoTodoPrefix(caption, ": " + url);
      assert caption + ": " + url == caption + (": " + url);
    }
  }

  lemma {:induction false} LinkTextsClean(ls: seq<Link>)
    ensures CleanTexts(LinkTexts(ls))
  {
    var all := seq(|ls|, i requires 0 <= i < |ls| => LinkText(ls[i]));
    forall j | 0 <= j < |all| ensures !StartsWith(all[j], Todo) {
      LinkTextClean(ls[j]);
    }
    var ts := LinkTexts(ls);
    forall k | 0 <= k < |ts| ensures ts[k] != "" && !StartsWith(ts[k], Todo) {
      assert ts[k] in all;
    }
  }

  /** The links section has lines exactly when some link yields a text, that is
      (LinkTextClean) when some link has a usable url. */
  lemma {:induction false} LinkTextsNonEmpty(ls: seq<Link>)
    ensures |LinkTexts(ls)| > 0 <==> exists i | 0 <= i < |ls| :: LinkText(ls[i]) != ""
  {
    var all := seq(|ls|, i requires 0 <= i < |ls| => LinkText(ls[i]));
    var ts := LinkTexts(ls);
    if |ts| > 0 {
      assert ts[0] in all;
    }
    if exists i | 0 <= i < |ls| :: LinkText(ls[i]) != "" {
      var i :| 0 <= i < |ls| && LinkText(ls[i]) != "";
      assert all[i] in ts;
    }
  }

  /** Joining clean parts with a separator that cannot continue "TODO" gives a clean text. */
  lemma {:induction false} JoinPresentClean(parts: seq<string>, sep: string)
    requires forall i | 0 <= i < |parts| :: !StartsWith(parts[i], Todo)
    requires sep != [] && sep[0] != 'O' && sep[0] != 'D'
    ensures !StartsWith(JoinPresent(parts, sep), Todo)
    ensures JoinPresent(parts, sep) == "" <==> forall i | 0 <= i < |parts| :: parts[i] == ""
  {
    var r := NonEmpty(parts);
    if |r| > 0 {
      assert r[0] in parts;
      if |r| > 1 {
        var rest := Join(r[1..], sep);
        NoTodoPrefix(r[0], sep + rest);
        assert Join(r, sep) == r[0] + (sep + rest);
      }
      JoinStartsWithFirst(r, sep);
    } else {
      forall i | 0 <= i < |parts| ensures parts[i] == "" {
        assert parts[i] in parts;
      }
    }
  }

  lemma {:induction false} PrefixedBody(prefix: string, v: Value)
    requires prefix != [] && prefix[0] != 'T'
    ensures Body(Prefixed(prefix, v)) && CountKind(Prefixed(prefix, v), SpacerSm) == 0
  {
    var t := SafeText(v);
    if t != "" {
      assert (prefix + t)[0] == prefix[0];
    }
  }

  lemma {:induction false} NameLineClean(b: Basics)
    ensures NameLine(b) != "" && !StartsWith(NameLine(b), Todo)
  {
    var name := Or(SafeText(b.name), NoName);
    assert name != "" && !StartsWith(name, Todo) by {
      if SafeText(b.name) == "" {
        assert NoName[0] != 'T';
      }
    }
    var headline := SafeText(b.headline);
    if headline != "" {
      NoTodoPrefix(name, Bar + headline);
      assert name + Bar + headline == name + (Bar + headline);
    }
  }

  lemma {:induction false} ConcatStart(a: string, b: string)
    requires a != []
    ensures (a + b)[0] == a[0] && StartsWith(a + b, a)
  {
    assert (a + b)[..|a|] == a;
  }

  lemma {:induction false} ConcatEnd(a: string, b: string)
    ensures EndsWith(a + b, b)
  {
    assert (a + b)[|a|..] == b;
  }

  /** The title line opens with the sanitised name, or with the placeholder name
      when there is none, so its first character is visible; a headline, when
      present, follows after a bar. */
  lemma {:induction false} NameLineStart(b: Basics)
    ensures StartsWith(NameLine(b), Or(SafeText(b.name), NoName))
    ensures NameLine(b) != [] && !IsSpace(NameLine(b)[0])
    ensures SafeText(b.headline) != "" ==> EndsWith(NameLine(b), Bar + SafeText(b.headline))
    ensures SafeText(b.headline) == "" ==> NameLine(b) == Or(SafeText(b.name), NoName)
  {
    var name := Or(SafeText(b.name), NoName);
    assert name != [] && !IsSpace(name[0]);
    var headline := SafeText(b.headline);
    if headline != "" {
      ConcatStart(name, Bar + headline);
      ConcatEnd(name, Bar + headline);
      assert name + Bar + headline == name + (Bar + headline);
    } else {
      assert StartsWith(name, name);
    }
  }

  lemma {:induction false} ExperienceLinesBody(it: Experience)
    ensures Body(ExperienceLines(it)) && CountKind(ExperienceLines(it), SpacerSm) == 1
    ensures ExperienceLines(it) != [] && ExperienceLines(it)[|ExperienceLines(it)| - 1] == SpacerSmLine
  {
    ExperienceTextsClean(it);
    var title := ExperienceTitle(it);
    var meta := ExperienceMeta(it);
    OptBody(H3, title);
    OptBody(Meta, meta);
    BulletsOfBody(it.summary + it.achievements);
    SpacerSmBody();
    Body4(Opt(H3, title), Opt(Meta, meta), BulletsOf(it.summary + it.achievements), [SpacerSmLine]);
  }

  /** Neither the title nor the meta line of an item starts with the placeholder. */
  lemma {:induction false} ExperienceTextsClean(it: Experience)
    ensures !StartsWith(ExperienceTitle(it), Todo) && !StartsWith(ExperienceMeta(it), Todo)
  {
    var parts := [SafeText(it.org), SafeText(it.role)];
    assert forall i | 0 <= i < |parts| :: !StartsWith(parts[i], Todo);
    JoinPresentClean(parts, Bar);
    parts := [FormatRange(it.start, it.end), SafeText(it.location)];
    assert forall i | 0 <= i < |parts| :: !StartsWith(parts[i], Todo);
    JoinPresentClean(parts, Bar);
  }

  lemma {:induction false} Body4(a: seq<Line>, b: seq<Line>, c: seq<Line>, d: seq<Line>)
    requires Body(a) && Body(b) && Body(c) && Body(d)
    ensures Body(a + b + c + d)
    ensures CountKind(a + b + c + d, SpacerSm)
      == CountKind(a, SpacerSm) + CountKind(b, SpacerSm) + CountKind(c, SpacerSm) + CountKind(d, SpacerSm)
  {
    BodyAppend(a, b);
    BodyAppend(a + b, c);
    BodyAppend(a + b + c, d);
  }

  lemma {:induction false} EvidenceLinesBody(ev: seq<Link>)
    ensures Body(EvidenceLines(ev)) && CountKind(EvidenceLines(ev), SpacerSm) == 0
  {
    var ts := LinkTexts(ev);
    LinkTextsClean(ev);
    TextBulletsBody(ts);
    if |ts| > 0 {
      OptBody(Meta, EvidenceTitle);
      BodyAppend([Line(Meta, EvidenceTitle)], TextBullets(ts));
    }
  }

  lemma {:induction false} ProjectLinesBody(p: Project)
    ensures Body(ProjectLines(p)) && CountKind(ProjectLines(p), SpacerSm) == 1
    ensures ProjectLines(p) != [] && ProjectLines(p)[|ProjectLines(p)| - 1] == SpacerSmLine
  {
    var a := Opt(H3, SafeText(p.name));
    var b := Prefixed(ContextPrefix, p.context);
    var c := BulletsOf(p.actions);
    var d := Prefixed(ResultPrefix, p.result);
    var e := EvidenceLines(p.evidence);
    var f := Prefixed(ReflectionPrefix, p.reflection);
    OptBody(H3, SafeText(p.name));
    PrefixedBody(ContextPrefix, p.context);
    BulletsOfBody(p.actions);
    PrefixedBody(ResultPrefix, p.result);
    EvidenceLinesBody(p.evidence);
    PrefixedBody(ReflectionPrefix, p.reflection);
    SpacerSmBody();
    Body4(a, b, c, d);
    Body4(a + b + c + d, e, f, [SpacerSmLine]);
  }

  lemma {:induction false} SkillLinesBody(g: SkillGroup)
    ensures Body(SkillLines(g)) && CountKind(SkillLines(g), SpacerSm) == 1
    ensures SkillLines(g) != [] && SkillLines(g)[|SkillLines(g)| - 1] == SpacerSmLine
  {
    OptBody(H3, SafeText(g.group));
    BulletsOfBody(g.items);
    SpacerSmBody();
    Body4([], Opt(H3, SafeText(g.group)), BulletsOf(g.items), [SpacerSmLine]);
    assert [] + Opt(H3, SafeText(g.group)) == Opt(H3, SafeText(g.group));
  }

  lemma {:induction false} EducationMetaClean(e: Education)
    ensures !StartsWith(EducationMeta(e), Todo)
  {
    var parts := [SafeText(e.degree), SafeText(e.major), FormatRange(e.start, e.end)];
    assert forall i | 0 <= i < |parts| :: !StartsWith(parts[i], Todo);
    JoinPresentClean(parts, Bar);
  }

  lemma {:induction false} EducationLinesBody(e: Education)
    ensures Body(EducationLines(e)) && CountKind(EducationLines(e), SpacerSm) == 1
    ensures EducationLines(e) != [] && EducationLines(e)[|EducationLines(e)| - 1] == SpacerSmLine
  {
    EducationMetaClean(e);
    OptBody(H3, SafeText(e.school));
    OptBody(Meta, EducationMeta(e));
    SpacerSmBody();
    Body4([], Opt(H3, SafeText(e.school)), Opt(Meta, EducationMeta(e)), [SpacerSmLine]);
    assert [] + Opt(H3, SafeText(e.school)) == Opt(H3, SafeText(e.school));
  }

  /** A section's entries: one body per entry, each closed by one small spacer. */
  lemma {:induction false} EntriesBody<T>(xs: seq<T>, f: T -> seq<Line>)
    requires forall i | 0 <= i < |xs| :: Body(f(xs[i])) && CountKind(f(xs[i]), SpacerSm) == 1
    ensures Body(Entries(xs, f)) && CountKind(Entries(xs, f), SpacerSm) == |xs|
  {
    if xs != [] {
      var init := xs[..|xs| - 1];
      assert forall i | 0 <= i < |init| :: init[i] == xs[i];
      EntriesBody(init, f);
      BodyAppend(Entries(init, f), f(xs[|xs| - 1]));
    }
  }

  lemma {:induction false} SectionBlock(heading: string, body: seq<Line>)
    requires heading != "" && !StartsWith(heading, Todo)
    requires Body(body)
    ensures Block(Section(heading, body))
    ensures Headings(Section(heading, body)) == [heading]
    ensures CountKind(Section(heading, body), SpacerSm) == CountKind(body, SpacerSm)
  {
    var head := [SpacerLine, Line(H2, heading)];
    assert head[1..] == [Line(H2, heading)];
    assert head[1..][1..] == [];
    assert Headings(head[1..]) == [heading] + Headings(head[1..][1..]);
    assert CountKind(head[1..], SpacerSm) == 0 && CountKind(head[1..], H1) == 0;
    HeadingsAppend(head, body);
    CountAppend(head, body, SpacerSm);
    CountAppend(head, body, H1);
    NoHeadings(body);
    var c := head + body;
  }

  lemma {:induction false} HeadingNames()
    ensures !StartsWith(LinksHeading, Todo) && !StartsWith(HighlightsHeading, Todo)
    ensures !StartsWith(ExperienceHeading, Todo) && !StartsWith(ProjectsHeading, Todo)
    ensures !StartsWith(SkillsHeading, Todo) && !StartsWith(EducationHeading, Todo)
    ensures !StartsWith(CertificatesTitle, Todo)
  {
    assert LinksHeading[0] != 'T' && HighlightsHeading[0] != 'T' && ExperienceHeading[0] != 'T';
    assert ProjectsHeading[0] != 'T' && SkillsHeading[0] != 'T' && EducationHeading[0] != 'T';
    assert CertificatesTitle[0] != 'T';
  }

  /** A section that appears only when `present`, with the given heading and body. */
  lemma {:induction false} OptionalSection(present: bool, heading: string, body: seq<Line>, s: seq<Line>)
    requires s == if present then Section(heading, body) else []
    requires heading != "" && !StartsWith(heading, Todo) && Body(body)
    ensures Block(s)
    ensures Headings(s) == if present then [heading] else []
    ensures CountKind(s, SpacerSm) == if present then CountKind(body, SpacerSm) else 0
  {
    if present {
      SectionBlock(heading, body);
    }
  }

  lemma {:induction false} HeaderFacts(b: Basics)
    ensures var h := HeaderLines(b);
      && h != [] && h[0] == Line(H1, NameLine(b))
      && Clean(h) && Spaced(h) && CountKind(h, H1) == 1
      && Headings(h) == [] && CountKind(h, SpacerSm) == 0
  {
    NameLineClean(b);
    JoinPresentClean([SafeText(b.location), SafeText(b.email), SafeText(b.phone)], Bar);
    var m := Opt(Meta, ContactLine(b));
    OptBody(Meta, ContactLine(b));
    var t := [Line(H1, NameLine(b))];
    CountAppend(t, m, H1);
    CountAppend(t, m, SpacerSm);
    HeadingsAppend(t, m);
    NoHeadings(m);
    var h := t + m;
    assert Clean(h) by {
      forall i | 0 <= i < |h| ensures IsText(h[i]) ==> h[i].text != "" && !StartsWith(h[i].text, Todo) {
        if i > 0 {
          assert h[i] == m[i - 1];
        }
      }
    }
    assert Spaced(h) by {
      forall i | 0 <= i < |h| ensures h[i].kind != H2 {
        if i > 0 {
          assert h[i] == m[i - 1];
        }
      }
    }
  }

  /** A block appended after the title lines keeps them first, clean and spaced. */
  lemma {:induction false} HeadAppend(a: seq<Line>, b: seq<Line>)
    requires a != [] && Clean(a) && Spaced(a) && Block(b)
    ensures a + b != [] && (a + b)[0] == a[0] && Clean(a + b) && Spaced(a + b)
    ensures Headings(a + b) == Headings(a) + Headings(b)
    ensures CountKind(a + b, H1) == CountKind(a, H1)
    ensures CountKind(a + b, SpacerSm) == CountKind(a, SpacerSm) + CountKind(b, SpacerSm)
  {
    HeadingsAppend(a, b);
    CountAppend(a, b, SpacerSm);
    CountAppend(a, b, H1);
    var c := a + b;
    forall i | 0 <= i < |c| ensures IsText(c[i]) ==> c[i].text != "" && !StartsWith(c[i].text, Todo) {
      if i < |a| {
        assert c[i] == a[i];
      } else {
        assert c[i] == b[i - |a|];
      }
    }
    forall i | 0 <= i < |c| && c[i].kind == H2 ensures i > 0 && c[i - 1].kind == Spacer {
      if i < |a| {
        assert c[i] == a[i] && c[i - 1] == a[i - 1];
      } else {
        assert c[i] == b[i - |a|];
        if i > |a| {
          assert c[i - 1] == b[i - |a| - 1];
        }
      }
    }
  }

  lemma {:induction false} ExperienceBody(xs: seq<Experience>)
    ensures Block(ExperienceSection(xs))
    ensures Headings(ExperienceSection(xs)) == if |xs| > 0 then [ExperienceHeading] else []
    ensures CountKind(ExperienceSection(xs), SpacerSm) == |xs|
  {
    forall i | 0 <= i < |xs| ensures Body(ExperienceLines(xs[i])) && CountKind(ExperienceLines(xs[i]), SpacerSm) == 1 {
      ExperienceLinesBody(xs[i]);
    }
    EntriesBody(xs, ExperienceLines);
    HeadingNames();
    OptionalSection(|xs| > 0, ExperienceHeading, Entries(xs, ExperienceLines), ExperienceSection(xs));
  }

  lemma {:induction false} ProjectsBody(ps: seq<Project>)
    ensures Block(ProjectsSection(ps))
    ensures Headings(ProjectsSection(ps)) == if |ps| > 0 then [ProjectsHeading] else []
    ensures CountKind(ProjectsSection(ps), SpacerSm) == |ps|
  {
    forall i | 0 <= i < |ps| ensures Body(ProjectLines(ps[i])) && CountKind(ProjectLines(ps[i]), SpacerSm) == 1 {
      ProjectLinesBody(ps[i]);
    }
    EntriesBody(ps, ProjectLines);
    HeadingNames();
    OptionalSection(|ps| > 0, ProjectsHeading, Entries(ps, ProjectLines), ProjectsSection(ps));
  }

  lemma {:induction false} SkillsBody(gs: seq<SkillGroup>)
    ensures Block(SkillsSection(gs))
    ensures Headings(SkillsSection(gs)) == if |gs| > 0 then [SkillsHeading] else []
    ensures CountKind(SkillsSection(gs), SpacerSm) == |gs|
  {
    forall i | 0 <= i < |gs| ensures Body(SkillLines(gs[i])) && CountKind(SkillLines(gs[i]), SpacerSm) == 1 {
      SkillLinesBody(gs[i]);
    }
    EntriesBody(gs, SkillLines);
    HeadingNames();
    OptionalSection(|gs| > 0, SkillsHeading, Entries(gs, SkillLines), SkillsSection(gs));
  }

  lemma {:induction false} LinksBody(b: Basics)
    ensures Block(LinksSection(b))
    ensures Headings(LinksSection(b)) == if |LinkTexts(b.links)| > 0 then [LinksHeading] else []
    ensures CountKind(LinksSection(b), SpacerSm) == 0
  {
    LinkTextsClean(b.links);
    TextBulletsBody(LinkTexts(b.links));
    HeadingNames();
    OptionalSection(|LinkTexts(b.links)| > 0, LinksHeading, TextBullets(LinkTexts(b.links)), LinksSection(b));
  }

  lemma {:induction false} HighlightsBody(hs: seq<Value>)
    ensures Block(HighlightsSection(hs))
    ensures Headings(HighlightsSection(hs)) == if |hs| > 0 then [HighlightsHeading] else []
    ensures CountKind(HighlightsSection(hs), SpacerSm) == 0
  {
    BulletsOfBody(hs);
    HeadingNames();
    OptionalSection(|hs| > 0, HighlightsHeading, BulletsOf(hs), HighlightsSection(hs));
  }

  /** The title lines followed by three more sections. */
  lemma {:induction false} Combine3(l0: seq<Line>, s1: seq<Line>, s2: seq<Line>, s3: seq<Line>)
    requires l0 != [] && Clean(l0) && Spaced(l0)
    requires Block(s1) && Block(s2) && Block(s3)
    ensures l0 + s1 + s2 + s3 != [] && (l0 + s1 + s2 + s3)[0] == l0[0]
    ensures Clean(l0 + s1 + s2 + s3) && Spaced(l0 + s1 + s2 + s3)
    ensures CountKind(l0 + s1 + s2 + s3, H1) == CountKind(l0, H1)
    ensures Headings(l0 + s1 + s2 + s3) == Headings(l0) + Headings(s1) + Headings(s2) + Headings(s3)
    ensures CountKind(l0 + s1 + s2 + s3, SpacerSm)
      == CountKind(l0, SpacerSm) + CountKind(s1, SpacerSm) + CountKind(s2, SpacerSm) + CountKind(s3, SpacerSm)
  {
    var a1: seq<Line> := l0 + s1;
    HeadAppend(l0, s1);
    var a2: seq<Line> := a1 + s2;
    HeadAppend(a1, s2);
    HeadAppend(a2, s3);
  }

  lemma {:induction false} Regroup(a: seq<string>, b: seq<string>, c: seq<string>, d: seq<string>,
                e: seq<string>, f: seq<string>, g: seq<string>)
    requires a == []
    ensures (a + b + c + d) + e + f + g == b + c + d + e + f + g
  {
  }

  /** `buildLines`' promises: one title line, first, holding the name (or the
      placeholder name) and the headline; no empty or placeholder text; the section
      headings in their fixed order, each present exactly when its list is, and each
      right after a spacer; one small spacer closing every entry of the experience,
      project, skill and education lists. */
  lemma {:induction false} LinesOfProperties(r: Resume)
    ensures var ls := LinesOf(r);
      && ls != [] && ls[0] == Line(H1, NameLine(r.basics)) && CountKind(ls, H1) == 1
      && Clean(ls)
      && Headings(ls) == ExpectedHeadings(r)
      && Spaced(ls)
      && CountKind(ls, SpacerSm) == |r.experience| + |r.projects| + |r.skills| + |r.education|
  {
    var b := r.basics;
    var s1: seq<Line> := LinksSection(b);
    var s2: seq<Line> := HighlightsSection(r.highlights);
    var s3: seq<Line> := ExperienceSection(r.experience);
    var s4: seq<Line> := ProjectsSection(r.projects);
    var s5: seq<Line> := SkillsSection(r.skills);
    var s6: seq<Line> := EducationSection(r.education, r.certifications);
    HeaderFacts(b);
    LinksBody(b);
    HighlightsBody(r.highlights);
    ExperienceBody(r.experience);
    ProjectsBody(r.projects);
    SkillsBody(r.skills);
    EducationBody(r.education, r.certifications);
    AssembleLines(HeaderLines(b), s1, s2, s3, s4, s5, s6);
    HeadingsInOrder(r, Headings(s1), Headings(s2), Headings(s3), Headings(s4), Headings(s5), Headings(s6));
  }

  lemma {:induction false} HeadingsInOrder(r: Resume, h1: seq<string>, h2: seq<string>, h3: seq<string>,
                                           h4: seq<string>, h5: seq<string>, h6: seq<string>)
    requires h1 == if |LinkTexts(r.basics.links)| > 0 then [LinksHeading] else []
    requires h2 == if |r.highlights| > 0 then [HighlightsHeading] else []
    requires h3 == if |r.experience| > 0 then [ExperienceHeading] else []
    requires h4 == if |r.projects| > 0 then [ProjectsHeading] else []
    requires h5 == if |r.skills| > 0 then [SkillsHeading] else []
    requires h6 == if |r.education| > 0 || |r.certifications| > 0 then [EducationHeading] else []
    ensures h1 + h2 + h3 + h4 + h5 + h6 == ExpectedHeadings(r)
  {
  }

  /** The title lines followed by six blocks, as `LinesOf` lays them out. */
  lemma {:induction false} AssembleLines(l0: seq<Line>, s1: seq<Line>, s2: seq<Line>, s3: seq<Line>,
                                         s4: seq<Line>, s5: seq<Line>, s6: seq<Line>)
    requires l0 != [] && Clean(l0) && Spaced(l0) && CountKind(l0, H1) == 1
    requires Headings(l0) == [] && CountKind(l0, SpacerSm) == 0
    requires Block(s1) && Block(s2) && Block(s3) && Block(s4) && Block(s5) && Block(s6)
    ensures var ls := l0 + s1 + s2 + s3 + s4 + s5 + s6;
      && ls != [] && ls[0] == l0[0] && CountKind(ls, H1) == 1
      && Clean(ls) && Spaced(ls)
      && Headings(ls) == Headings(s1) + Headings(s2) + Headings(s3) + Headings(s4) + Headings(s5) + Headings(s6)
      && CountKind(ls, SpacerSm) == CountKind(s1, SpacerSm) + CountKind(s2, SpacerSm) + CountKind(s3, SpacerSm)
           + CountKind(s4, SpacerSm) + CountKind(s5, SpacerSm) + CountKind(s6, SpacerSm)
  {
    Combine3(l0, s1, s2, s3);
    var l3: seq<Line> := l0 + s1 + s2 + s3;
    Combine3(l3, s4, s5, s6);
    Regroup(Headings(l0), Headings(s1), Headings(s2), Headings(s3), Headings(s4), Headings(s5), Headings(s6));
  }

  lemma {:induction false} EducationEntriesBody(es: seq<Education>)
    ensures Body(Entries(es, EducationLines)) && CountKind(Entries(es, EducationLines), SpacerSm) == |es|
  {
    forall i | 0 <= i < |es| ensures Body(EducationLines(es[i])) && CountKind(EducationLines(es[i]), SpacerSm) == 1 {
      EducationLinesBody(es[i]);
    }
    EntriesBody(es, EducationLines);
  }

  lemma {:induction false} CertificateLinesBody(cs: seq<Value>)
    ensures Body(CertificateLines(cs)) && CountKind(CertificateLines(cs), SpacerSm) == 0
  {
    BulletsOfBody(cs);
    OptBody(H3, CertificatesTitle);
    if |cs| > 0 {
      BodyAppend([Line(H3, CertificatesTitle)], BulletsOf(cs));
    }
  }

  lemma {:induction false} EducationBody(es: seq<Education>, cs: seq<Value>)
    ensures Block(EducationSection(es, cs))
    ensures Headings(EducationSection(es, cs)) == if |es| > 0 || |cs| > 0 then [EducationHeading] else []
    ensures CountKind(EducationSection(es, cs), SpacerSm) == |es|
  {
    EducationEntriesBody(es);
    CertificateLinesBody(cs);
    HeadingNames();
    BodyAppend(Entries(es, EducationLines), CertificateLines(cs));
    OptionalSection(|es| > 0 || |cs| > 0, EducationHeading, Entries(es, EducationLines) + CertificateLines(cs),
                    EducationSection(es, cs));
  }
}
