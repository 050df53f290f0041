/** The first half of `generatePdf`: the line stream is laid out on A4 pages with a
    running vertical cursor. Every text line is wrapped to the width its font allows
    and placed at the left margin; a line that would fall below the bottom margin
    starts a new page. Coordinates are in hundredths of a PDF point, so the decimal
    constants of the script are exact integers here. */
module Paginate {
  import opened Strings
  import opened Ucs2
  import opened Wrap
  import opened ResumeLines

  /** Page width and height: 595.28 and 841.89 points. */
  const PageW: int := 59528
  const PageH: int := 84189
  /** The margin on every side: 42 points. */
  const Margin: int := 4200
  /** Where the cursor starts on each page. */
  const Top: int := PageH - Margin
  /** The text width, `PAGE_W - M * 2`. */
  const MaxWidth: int := PageW - 2 * Margin

  /** The vertical space of a `spacer`, a `spacer-sm`, and the padding above and
      below an `h2`: 10, 6 and 2 points. */
  const SpacerGap: int := 1000
  const SpacerSmGap: int := 600
  const H2Pad: int := 200

  /** The keys of the `styles` table. */
  datatype Style = H1Style | H2Style | H3Style | MetaStyle | BodyStyle

  function SizeOf(s: Style): (n: nat)
    ensures n > 0
  {
    match s
    case H1Style => 18
    case H2Style => 14
    case H3Style => 12
    case MetaStyle => 10
    case BodyStyle => 11
  }

  /** The leading, in hundredths. */
  function LeadingOf(s: Style): (n: nat)
    ensures 0 < n < Top - Margin
  {
    match s
    case H1Style => 2400
    case H2Style => 2000
    case H3Style => 1800
    case MetaStyle => 1400
    case BodyStyle => 1600
  }

  /** `maxCharsFor`, as its table of values; `MaxCharsFormula` shows that the
      table is `max(16, floor(maxWidth / (fontSize * 0.92)))` computed exactly. */
  function MaxCharsFor(s: Style): (n: nat)
    ensures n >= 16
  {
    match s
    case H1Style => 30
    case H2Style => 39
    case H3Style => 46
    case MetaStyle => 55
    case BodyStyle => 50
  }

  lemma {:induction false} MaxCharsFormula(s: Style)
    ensures var q := MaxWidth / (92 * SizeOf(s));
      MaxCharsFor(s) == if q < 16 then 16 else q
  {
  }

  /** The bullet prefix. */
  const BulletPrefix: string := "• "

  /** A line placed on a page: `{fontSize, text, x, y, kind}`. */
  datatype Placed = Placed(fontSize: nat, text: string, x: int, y: int, style: Style)

  /** The cursor state `y`, `cur` (the page being filled) and `pages`. */
  datatype Cursor = Cursor(y: int, cur: seq<Placed>, pages: seq<seq<Placed>>)

  const Start: Cursor := Cursor(Top, [], [])

  // ---------------------------------------------------------------------------
  // The layout, as functions of the cursor

  function NewPageF(c: Cursor): Cursor {
    Cursor(Top, [], if c.cur != [] then c.pages + [c.cur] else c.pages)
  }

  function PushLineF(c: Cursor, s: Style, text: string): Cursor {
    var lead := LeadingOf(s);
    var c1 := if c.y - lead < Margin then NewPageF(c) else c;
    Cursor(c1.y - lead, c1.cur + [Placed(SizeOf(s), text, Margin, c1.y, s)], c1.pages)
  }

  /** The text of the `i`-th piece of a wrapped line: the prefix on the first, as
      many spaces as the prefix has code units on the others. */
  function PieceText(prefix: string, i: nat, piece: string): string {
    (if i == 0 then prefix else Repeat(' ', UnitLength(prefix))) + piece
  }

  /** The width `pushWrapped` wraps to. */
  function WrapWidth(s: Style, prefix: string): int {
    MaxCharsFor(s) - UnitLength(prefix)
  }

  function PushPiecesF(c: Cursor, s: Style, pieces: seq<string>, prefix: string): Cursor {
    if pieces == [] then c
    else PushLineF(PushPiecesF(c, s, pieces[..|pieces| - 1], prefix), s,
                   PieceText(prefix, |pieces| - 1, pieces[|pieces| - 1]))
  }

  lemma {:induction false} PushPiecesSnoc(c: Cursor, s: Style, pieces: seq<string>, prefix: string, i: nat)
    requires i < |pieces|
    ensures PushPiecesF(c, s, pieces[..i + 1], prefix)
         == PushLineF(PushPiecesF(c, s, pieces[..i], prefix), s, PieceText(prefix, i, pieces[i]))
  {
    assert pieces[..i + 1][..i] == pieces[..i];
  }

  function PushWrappedF(c: Cursor, s: Style, text: string, prefix: string): Cursor {
    PushPiecesF(c, s, WrapPieces(text, WrapWidth(s, prefix)), prefix)
  }

  function LowerF(c: Cursor, d: int): Cursor {
    c.(y := c.y - d)
  }

  /** One iteration of the loop over the line stream. */
  function StepF(c: Cursor, l: Line): Cursor {
    match l.kind
    case Spacer => LowerF(c, SpacerGap)
    case SpacerSm => LowerF(c, SpacerSmGap)
    case H1 => PushWrappedF(c, H1Style, l.text, "")
    case H2 => LowerF(PushWrappedF(LowerF(c, H2Pad), H2Style, l.text, ""), H2Pad)
    case H3 => PushWrappedF(c, H3Style, l.text, "")
    case Meta => PushWrappedF(c, MetaStyle, l.text, "")
    case Bullet => PushWrappedF(c, BodyStyle, l.text, BulletPrefix)
  }

  function RunF(c: Cursor, ls: seq<Line>): Cursor {
    if ls == [] then c else StepF(RunF(c, ls[..|ls| - 1]), ls[|ls| - 1])
  }

  /** The last, unfinished page is kept when it has lines. */
  function FinishF(c: Cursor): seq<seq<Placed>> {
    if c.cur != [] then c.pages + [c.cur] else c.pages
  }

  /** The pages `generatePdf` lays out for a line stream. */
  function PagesOf(ls: seq<Line>): seq<seq<Placed>> {
    FinishF(RunF(Start, ls))
  }

  // ---------------------------------------------------------------------------
  // The layout as the script performs it, on a mutable cursor

  class Paginator {
    var y: int
    var cur: seq<Placed>
    var pages: seq<seq<Placed>>

    function State(): Cursor
      reads this
    {
      Cursor(y, cur, pages)
    }

    constructor()
      ensures State() == Start
    {
      y := Top;
      cur := [];
      pages := [];
    }

    /** `newPage`. */
    method NewPage()
      modifies this
      ensures State() == NewPageF(old(State()))
    {
      if |cur| > 0 {
        pages := pages + [cur];
      }
      cur := [];
      y := Top;
    }

    /** `pushLine`. */
    method PushLine(s: Style, text: string)
      modifies this
      ensures State() == PushLineF(old(State()), s, text)
    {
      var leading := LeadingOf(s);
      if y - leading < Margin {
        NewPage();
      }
      cur := cur + [Placed(SizeOf(s), text, Margin, y, s)];
      y := y - leading;
    }

    /** `pushWrapped`. */
    method PushWrapped(s: Style, text: string, prefix: string)
      modifies this
      ensures State() == PushWrappedF(old(State()), s, text, prefix)
    {
      ghost var c0 := State();
      var maxChars := WrapWidth(s, prefix);
      var wrapped := WrapText(text, maxChars);
      if |wrapped| == 0 {
        return;
      }
      for i := 0 to |wrapped|
        invariant State() == PushPiecesF(c0, s, wrapped[..i], prefix)
      {
        PushPiecesSnoc(c0, s, wrapped, prefix, i);
        var t := PieceText(prefix, i, wrapped[i]);
        PushLine(s, t);
      }
      assert wrapped[..|wrapped|] == wrapped;
    }

    method Lower(d: int)
      modifies this
      ensures State() == LowerF(old(State()), d)
    {
      y := y - d;
    }

    /** The loop over the line stream. */
    method Run(ls: seq<Line>)
      modifies this
      ensures State() == RunF(old(State()), ls)
    {
      for i := 0 to |ls|
        invariant State() == RunF(old(State()), ls[..i])
      {
        assert ls[..i + 1][..i] == ls[..i];
        var l := ls[i];
        match l.kind {
          case Spacer => Lower(SpacerGap);
          case SpacerSm => Lower(SpacerSmGap);
          case H1 => PushWrapped(H1Style, l.text, "");
          case H2 =>
            Lower(H2Pad);
            PushWrapped(H2Style, l.text, "");
            Lower(H2Pad);
          case H3 => PushWrapped(H3Style, l.text, "");
          case Meta => PushWrapped(MetaStyle, l.text, "");
          case Bullet => PushWrapped(BodyStyle, l.text, BulletPrefix);
        }
      }
      assert ls[..|ls|] == ls;
    }
  }

  /** The pagination step of `generatePdf`: a fresh cursor runs over the stream, and
      the last page is kept if it has lines. */
  method Paginate(ls: seq<Line>) returns (pages: seq<seq<Placed>>)
    ensures pages == PagesOf(ls)
  {
    var p := new Paginator();
    p.Run(ls);
    pages := p.pages;
    if |p.cur| > 0 {
      pages := pages + [p.cur];
    }
  }

  // ---------------------------------------------------------------------------
  // What the layout promises

  /** A placed line sits at the left margin, in its style's font size, at a height
      that leaves its leading above the bottom margin and below the top one. */
  predicate WellPlaced(p: Placed) {
    p.x == Margin && p.fontSize == SizeOf(p.style) && Margin + LeadingOf(p.style) <= p.y <= Top
  }

  /** Each line of a page is at least the previous line's leading below it. */
  predicate Descending(ps: seq<Placed>) {
    forall i | 0 < i < |ps| :: ps[i].y <= ps[i - 1].y - LeadingOf(ps[i - 1].style)
  }

  predicate GoodPage(ps: seq<Placed>) {
    (forall i | 0 <= i < |ps| :: WellPlaced(ps[i])) && Descending(ps)
  }

  predicate GoodPages(pss: seq<seq<Placed>>) {
    forall k | 0 <= k < |pss| :: pss[k] != [] && GoodPage(pss[k])
  }

  /** The cursor invariant: the cursor is never above the top margin, and never
      above the point just below the last line of the page being filled. */
  predicate Valid(c: Cursor) {
    && c.y <= Top && GoodPage(c.cur) && GoodPages(c.pages)
    && (c.cur != [] ==> c.y <= c.cur[|c.cur| - 1].y - LeadingOf(c.cur[|c.cur| - 1].style))
  }

  function Flatten(pss: seq<seq<Placed>>): seq<Placed> {
    if pss == [] then [] else Flatten(pss[..|pss| - 1]) + pss[|pss| - 1]
  }

  /** Everything placed so far, finished pages first. */
  function Output(c: Cursor): seq<Placed> {
    Flatten(c.pages) + c.cur
  }

  /** What a placed line says: its style and text. */
  datatype Mark = Mark(style: Style, text: string)

  function MarksOf(ps: seq<Placed>): seq<Mark> {
    if ps == [] then [] else MarksOf(ps[..|ps| - 1]) + [Mark(ps[|ps| - 1].style, ps[|ps| - 1].text)]
  }

  // The reference output: the lines, wrapped, with no cursor at all.

  function PieceMarks(s: Style, pieces: seq<string>, prefix: string): seq<Mark> {
    if pieces == [] then []
    else PieceMarks(s, pieces[..|pieces| - 1], prefix) + [Mark(s, PieceText(prefix, |pieces| - 1, pieces[|pieces| - 1]))]
  }

  function LineMarks(l: Line): seq<Mark> {
    match l.kind
    case Spacer => []
    case SpacerSm => []
    case H1 => PieceMarks(H1Style, WrapPieces(l.text, WrapWidth(H1Style, "")), "")
    case H2 => PieceMarks(H2Style, WrapPieces(l.text, WrapWidth(H2Style, "")), "")
    case H3 => PieceMarks(H3Style, WrapPieces(l.text, WrapWidth(H3Style, "")), "")
    case Meta => PieceMarks(MetaStyle, WrapPieces(l.text, WrapWidth(MetaStyle, "")), "")
    case Bullet => PieceMarks(BodyStyle, WrapPieces(l.text, WrapWidth(BodyStyle, BulletPrefix)), BulletPrefix)
  }

  /** The marks of each element of `xs`, in order. */
  function FlatMap<T, U>(xs: seq<T>, f: T -> seq<U>): seq<U> {
    if xs == [] then [] else FlatMap(xs[..|xs| - 1], f) + f(xs[|xs| - 1])
  }

  lemma {:induction false} FlatMapMembers<T, U>(xs: seq<T>, f: T -> seq<U>, u: U)
    ensures u in FlatMap(xs, f) <==> exists i | 0 <= i < |xs| :: u in f(xs[i])
  {
    if xs != [] {
      var init := xs[..|xs| - 1];
      FlatMapMembers(init, f, u);
      if u in FlatMap(init, f) {
        var i :| 0 <= i < |init| && u in f(init[i]);
        assert xs[i] == init[i];
      }
      if exists i | 0 <= i < |xs| :: u in f(xs[i]) {
        var i :| 0 <= i < |xs| && u in f(xs[i]);
        if i < |init| {
          assert xs[i] == init[i];
        }
      }
    }
  }

  lemma {:induction false} FlatMapAppend<T, U>(a: seq<T>, b: seq<T>, f: T -> seq<U>)
    ensures FlatMap(a + b, f) == FlatMap(a, f) + FlatMap(b, f)
    decreases |b|
  {
    if b == [] {
      assert a + b == a;
    } else {
      var binit := b[..|b| - 1];
      assert (a + b)[..|a + b| - 1] == a + binit;
      FlatMapAppend(a, binit, f);
    }
  }

  /** When every piece has length `w`, piece `i` sits at `w * i`. */
  lemma {:induction false} FlatMapUniform<T, U>(xs: seq<T>, f: T -> seq<U>, w: nat)
    requires forall i | 0 <= i < |xs| :: |f(xs[i])| == w
    ensures |FlatMap(xs, f)| == w * |xs|
    ensures forall i | 0 <= i < |xs| :: w * i + w <= |FlatMap(xs, f)| && FlatMap(xs, f)[w * i..w * i + w] == f(xs[i])
  {
    if xs != [] {
      var init, last := xs[..|xs| - 1], xs[|xs| - 1];
      FlatMapUniform(init, f, w);
      var a := FlatMap(init, f);
      var o := a + f(last);
      MulSucc(w, |init|);
      assert |o| == w * |xs|;
      forall i | 0 <= i < |xs| ensures w * i + w <= |o| && o[w * i..w * i + w] == f(xs[i]) {
        if i < |init| {
          MulSucc(w, i);
          MulLeft(w, i + 1, |init|);
          SliceOfPrefix(a, f(last), w * i, w * i + w);
          assert xs[i] == init[i];
        } else {
          assert o[w * i..w * i + w] == f(last);
        }
      }
    }
  }

  lemma {:induction false} SliceOfPrefix<U>(a: seq<U>, b: seq<U>, lo: nat, hi: nat)
    requires lo <= hi <= |a|
    ensures (a + b)[lo..hi] == a[lo..hi]
  {
  }

  lemma {:induction false} MulSucc(w: nat, n: nat)
    ensures w * (n + 1) == w * n + w
  {
  }

  lemma {:induction false} MulLeft(w: nat, a: nat, b: nat)
    requires a <= b
    ensures w * a <= w * b
  {
  }

  lemma {:induction false} FlatMapHead<T, U>(xs: seq<T>, f: T -> seq<U>)
    requires xs != []
    ensures FlatMap(xs, f) == f(xs[0]) + FlatMap(xs[1..], f)
  {
    assert xs == [xs[0]] + xs[1..];
    FlatMapAppend([xs[0]], xs[1..], f);
    assert [xs[0]][..0] == [];
  }

  function Emitted(ls: seq<Line>): seq<Mark> {
    FlatMap(ls, LineMarks)
  }

  lemma {:induction false} GoodPageSnoc(ps: seq<Placed>, p: Placed)
    requires GoodPage(ps) && WellPlaced(p)
    requires ps != [] ==> p.y <= ps[|ps| - 1].y - LeadingOf(ps[|ps| - 1].style)
    ensures GoodPage(ps + [p])
  {
    var q := ps + [p];
    forall i | 0 < i < |q| ensures q[i].y <= q[i - 1].y - LeadingOf(q[i - 1].style) {
      if i < |ps| {
        assert q[i] == ps[i] && q[i - 1] == ps[i - 1];
      } else {
        assert q[i - 1] == ps[|ps| - 1];
      }
    }
  }

  lemma {:induction false} NewPageFacts(c: Cursor)
    requires Valid(c)
    ensures Valid(NewPageF(c)) && Output(NewPageF(c)) == Output(c)
  {
    if c.cur != [] {
      assert (c.pages + [c.cur])[..|c.pages|] == c.pages;
    }
  }

  lemma {:induction false} MarksSnoc(ps: seq<Placed>, p: Placed)
    ensures MarksOf(ps + [p]) == MarksOf(ps) + [Mark(p.style, p.text)]
  {
    assert (ps + [p])[..|ps|] == ps;
  }

  /** `pushLine` keeps the invariant ... */
  lemma {:induction false} PushLineValid(c: Cursor, s: Style, text: string)
    requires Valid(c)
    ensures Valid(PushLineF(c, s, text))
  {
    var lead := LeadingOf(s);
    var c1 := if c.y - lead < Margin then NewPageF(c) else c;
    NewPageFacts(c);
    var p := Placed(SizeOf(s), text, Margin, c1.y, s);
    GoodPageSnoc(c1.cur, p);
  }

  /** ... and places exactly one line, the given one, after all the others. */
  lemma {:induction false} PushLineMarks(c: Cursor, s: Style, text: string)
    ensures MarksOf(Output(PushLineF(c, s, text))) == MarksOf(Output(c)) + [Mark(s, text)]
  {
    var lead := LeadingOf(s);
    var c1 := if c.y - lead < Margin then NewPageF(c) else c;
    if c.cur != [] {
      assert (c.pages + [c.cur])[..|c.pages|] == c.pages;
    }
    assert Output(c1) == Output(c);
    var p := Placed(SizeOf(s), text, Margin, c1.y, s);
    assert Output(PushLineF(c, s, text)) == Output(c1) + [p];
    MarksSnoc(Output(c1), p);
  }

  lemma {:induction false} PushPiecesFacts(c: Cursor, s: Style, pieces: seq<string>, prefix: string)
    requires Valid(c)
    ensures Valid(PushPiecesF(c, s, pieces, prefix))
    ensures MarksOf(Output(PushPiecesF(c, s, pieces, prefix))) == MarksOf(Output(c)) + PieceMarks(s, pieces, prefix)
  {
    if pieces != [] {
      var init := pieces[..|pieces| - 1];
      PushPiecesFacts(c, s, init, prefix);
      var c1 := PushPiecesF(c, s, init, prefix);
      var t := PieceText(prefix, |pieces| - 1, pieces[|pieces| - 1]);
      PushLineValid(c1, s, t);
      PushLineMarks(c1, s, t);
      Assoc(MarksOf(Output(c)), PieceMarks(s, init, prefix), [Mark(s, t)]);
    }
  }

  lemma {:induction false} LowerFacts(c: Cursor, d: int)
    requires Valid(c) && d >= 0
    ensures Valid(LowerF(c, d)) && Output(LowerF(c, d)) == Output(c)
  {
  }

  lemma {:induction false} StepFacts(c: Cursor, l: Line)
    requires Valid(c)
    ensures Valid(StepF(c, l))
    ensures MarksOf(Output(StepF(c, l))) == MarksOf(Output(c)) + LineMarks(l)
  {
    match l.kind {
      case Spacer => LowerFacts(c, SpacerGap);
      case SpacerSm => LowerFacts(c, SpacerSmGap);
      case H1 => PushPiecesFacts(c, H1Style, WrapPieces(l.text, WrapWidth(H1Style, "")), "");
      case H2 =>
        var c1 := LowerF(c, H2Pad);
        LowerFacts(c, H2Pad);
        PushPiecesFacts(c1, H2Style, WrapPieces(l.text, WrapWidth(H2Style, "")), "");
        LowerFacts(PushWrappedF(c1, H2Style, l.text, ""), H2Pad);
      case H3 => PushPiecesFacts(c, H3Style, WrapPieces(l.text, WrapWidth(H3Style, "")), "");
      case Meta => PushPiecesFacts(c, MetaStyle, WrapPieces(l.text, WrapWidth(MetaStyle, "")), "");
      case Bullet => PushPiecesFacts(c, BodyStyle, WrapPieces(l.text, WrapWidth(BodyStyle, BulletPrefix)), BulletPrefix);
    }
  }

  lemma {:induction false} RunFacts(c: Cursor, ls: seq<Line>)
    requires Valid(c)
    ensures Valid(RunF(c, ls))
    ensures MarksOf(Output(RunF(c, ls))) == MarksOf(Output(c)) + Emitted(ls)
  {
    if ls != [] {
      var init := ls[..|ls| - 1];
      RunFacts(c, init);
      assert Emitted(ls) == Emitted(init) + LineMarks(ls[|ls| - 1]);
      StepFacts(RunF(c, init), ls[|ls| - 1]);
    }
  }

  lemma {:induction false} FlattenEmpty(pss: seq<seq<Placed>>)
    requires forall k | 0 <= k < |pss| :: pss[k] != []
    ensures Flatten(pss) == [] <==> pss == []
  {
    if pss != [] {
      FlattenEmpty(pss[..|pss| - 1]);
    }
  }

  /** The pagination's promises: no page is empty; every line is placed within the
      margins and below the previous line of its page; and reading the pages in
      order gives back exactly the wrapped lines of the stream, nothing dropped,
      repeated or reordered, so there is a page exactly when something was written. */
  lemma {:induction false} PagesOfProperties(ls: seq<Line>)
    ensures GoodPages(PagesOf(ls))
    ensures MarksOf(Flatten(PagesOf(ls))) == Emitted(ls)
    ensures |PagesOf(ls)| > 0 <==> Emitted(ls) != []
  {
    var c := RunF(Start, ls);
    RunFacts(Start, ls);
    assert Output(Start) == [];
    var pages := PagesOf(ls);
    if c.cur != [] {
      assert pages[..|c.pages|] == c.pages;
    }
    assert Flatten(pages) == Output(c);
    FlattenEmpty(pages);
  }

  /** Spacers move the cursor down and nothing else: they never break a page, even
      when they take it below the bottom margin. */
  lemma {:induction false} SpacersKeepPage(c: Cursor, l: Line)
    requires l.kind == Spacer || l.kind == SpacerSm
    ensures StepF(c, l).cur == c.cur && StepF(c, l).pages == c.pages
    ensures StepF(c, l).y == c.y - (if l.kind == Spacer then SpacerGap else SpacerSmGap)
  {
  }

  lemma {:induction false} PieceMarksLength(s: Style, pieces: seq<string>, prefix: string)
    ensures |PieceMarks(s, pieces, prefix)| == |pieces|
  {
    if pieces != [] {
      PieceMarksLength(s, pieces[..|pieces| - 1], prefix);
    }
  }

  /** A title whose first character is visible is placed on at least one line. */
  lemma {:induction false} TitleMarks(l: Line)
    requires l.kind == H1 && l.text != [] && !IsSpace(l.text[0])
    ensures LineMarks(l) != []
  {
    var pieces := WrapPieces(l.text, WrapWidth(H1Style, ""));
    CollapseNonEmpty(l.text);
    WrapPiecesProperties(l.text, WrapWidth(H1Style, ""));
    PieceMarksLength(H1Style, pieces, "");
  }

  /** A stream that opens with such a title fills at least one page. */
  lemma {:induction false} TitleMakesPage(ls: seq<Line>)
    requires ls != [] && ls[0].kind == H1 && ls[0].text != [] && !IsSpace(ls[0].text[0])
    ensures |PagesOf(ls)| > 0
  {
    TitleMarks(ls[0]);
    FlatMapHead(ls, LineMarks);
    PagesOfProperties(ls);
  }

  /** A résumé always fills at least one page, since its title line is never blank. */
  lemma {:induction false} ResumeHasPage(r: ResumeLines.Resume)
    ensures |PagesOf(LinesOf(r))| > 0
  {
    LinesOfProperties(r);
    NameLineStart(r.basics);
    TitleMakesPage(LinesOf(r));
  }
}
