/** The second half of `generatePdf`, first step: the numbered object table. Object
    1 is a Type0 font over a CID font (object 2) with its descriptor (object 3); page
    `i` (from 0) has its content stream as object `4 + 2i` and its page dictionary as
    object `5 + 2i`; then come the Pages root and the Catalog, the last object. */
module PdfObjects {
  import opened Wrappers
  import opened Strings
  import opened Ucs2
  import opened Paginate

  // ---------------------------------------------------------------------------
  // Byte counts and character classes

  /** The number of bytes `c` takes in UTF-8 (RFC 3629 section 3). */
  function Utf8Width(c: char): nat {
    if c as int < 0x80 then 1
    else if c as int < 0x800 then 2
    else if c as int < 0x1_0000 then 3
    else 4
  }

  /** `Buffer.byteLength(s, "utf8")`. */
  function Utf8Length(s: string): nat {
    if s == [] then 0 else Utf8Length(s[..|s| - 1]) + Utf8Width(s[|s| - 1])
  }

  lemma {:induction false} Utf8LengthAppend(a: string, b: string)
    ensures Utf8Length(a + b) == Utf8Length(a) + Utf8Length(b)
    decreases |b|
  {
    if b == [] {
      assert a + b == a;
    } else {
      assert (a + b)[..|a + b| - 1] == a + b[..|b| - 1];
      Utf8LengthAppend(a, b[..|b| - 1]);
    }
  }

  /** On ASCII text the UTF-8 byte count is the character count. */
  lemma {:induction false} Utf8LengthAscii(s: string)
    requires IsAscii(s)
    ensures Utf8Length(s) == |s|
  {
    if s != [] {
      Utf8LengthAscii(s[..|s| - 1]);
    }
  }

  lemma {:induction false} AsciiConcat(a: string, b: string)
    requires IsAscii(a) && IsAscii(b)
    ensures IsAscii(a + b)
  {
    forall i | 0 <= i < |a + b| ensures (a + b)[i] as int < 128 {
      if i >= |a| {
        assert (a + b)[i] == b[i - |a|];
      }
    }
  }

  lemma {:induction false} NatToStringAscii(n: nat)
    ensures IsAscii(NatToString(n))
  {
    NatToStringDigits(n);
    assert forall i | 0 <= i < |NatToString(n)| :: IsDigit(NatToString(n)[i]);
  }

  lemma {:induction false} JoinAscii(parts: seq<string>, sep: string)
    requires IsAscii(sep) && forall i | 0 <= i < |parts| :: IsAscii(parts[i])
    ensures IsAscii(Join(parts, sep))
  {
    if |parts| > 1 {
      JoinAscii(parts[1..], sep);
      AsciiConcat(parts[0], sep);
      AsciiConcat(parts[0] + sep, Join(parts[1..], sep));
    }
  }

  lemma {:induction false} HexUpperAscii(b: seq<byte>)
    ensures IsAscii(HexUpper(b))
  {
    forall i | 0 <= i < |HexUpper(b)| ensures HexUpper(b)[i] as int < 128 {
      HexUpperAt(b, i / 2);
    }
  }

  // ---------------------------------------------------------------------------
  // Number formatting

  /** `Number.prototype.toFixed(2)` of a value `h / 100`, given exactly in hundredths. */
  function Fixed2(h: int): (r: string) {
    if h < 0 then "-" + Unsigned2(-h) else Unsigned2(h)
  }

  function Unsigned2(a: nat): string {
    NatToString(a / 100) + "." + Cents(a % 100)
  }

  /** The two digits after the point. */
  function Cents(c: nat): string {
    PadStart(NatToString(c), 2, '0')
  }

  lemma {:induction false} CentsDigits(c: nat)
    requires c < 100
    ensures |Cents(c)| == 2 && IsDigits(Cents(c)) && DigitsValue(Cents(c)) == c
  {
    NatToStringDigits(c);
    NatToStringLength(c, 2);
    var d := NatToString(c);
    var t := Cents(c);
    if |d| == 1 {
      assert t == ['0'] + d;
      assert t[..1] == ['0'];
      assert d[..0] == [];
    } else {
      assert t == d;
    }
  }

  /** `r` is digits, a point and exactly two digits, which together make `h`
      hundredths. */
  predicate Hundredths(r: string, h: nat) {
    && |r| >= 4 && r[|r| - 3] == '.'
    && IsDigits(r[..|r| - 3]) && IsDigits(r[|r| - 2..])
    && DigitsValue(r[..|r| - 3]) * 100 + DigitsValue(r[|r| - 2..]) == h
  }

  lemma {:induction false} PointSplit(r: string, ip: string, fp: string, h: nat)
    requires r == ip + "." + fp && ip != [] && |fp| == 2 && IsDigits(ip) && IsDigits(fp)
    requires DigitsValue(ip) * 100 + DigitsValue(fp) == h
    ensures Hundredths(r, h)
  {
    assert r[..|r| - 3] == ip && r[|r| - 2..] == fp;
  }

  /** Reading a formatted non-negative value back: digits, a point, exactly two
      digits, and together they make `h` hundredths. */
  lemma {:induction false} Fixed2Value(h: nat)
    ensures Hundredths(Fixed2(h), h)
  {
    NatToStringDigits(h / 100);
    CentsDigits(h % 100);
    PointSplit(Fixed2(h), NatToString(h / 100), Cents(h % 100), h);
  }

  /** A negative value is printed as its magnitude after a minus sign. */
  lemma {:induction false} Fixed2Negative(h: int)
    requires h < 0
    ensures Fixed2(h) == "-" + Fixed2(-h)
  {
  }

  lemma {:induction false} DigitsAscii(s: string)
    requires IsDigits(s)
    ensures IsAscii(s)
  {
  }

  lemma {:induction false} Fixed2Ascii(h: int)
    ensures IsAscii(Fixed2(h))
  {
    var a: nat := if h < 0 then -h else h;
    NatToStringDigits(a / 100);
    CentsDigits(a % 100);
    PointAscii(NatToString(a / 100), Cents(a % 100));
    if h < 0 {
      AsciiConcat("-", Unsigned2(a));
    }
  }

  lemma {:induction false} PointAscii(ip: string, fp: string)
    requires IsDigits(ip) && IsDigits(fp)
    ensures IsAscii(ip + "." + fp)
  {
    DigitsAscii(ip);
    DigitsAscii(fp);
    AsciiConcat(ip, ".");
    AsciiConcat(ip + ".", fp);
  }

  lemma {:induction false} NatToString2(n: nat)
    requires 10 <= n < 100
    ensures NatToString(n) == [DigitChar(n / 10), DigitChar(n % 10)]
  {
  }

  lemma {:induction false} NatToString3(n: nat)
    requires 100 <= n < 1000
    ensures NatToString(n) == [DigitChar(n / 100), DigitChar(n / 10 % 10), DigitChar(n % 10)]
  {
    var q := n / 10;
    assert 10 <= q < 100 && q / 10 == n / 100;
    NatToString2(q);
  }

  /** The page box and the margin as the script prints them. */
  lemma {:induction false} Fixed2Constants()
    ensures Fixed2(PageW) == "595.28" && Fixed2(PageH) == "841.89" && Fixed2(Margin) == "42.00"
  {
    NatToString3(595);
    NatToString2(28);
    NatToString3(841);
    NatToString2(89);
    NatToString2(42);
    assert NatToString(0) == "0";
  }

  lemma {:induction false} MediaBoxFormat()
    ensures MediaBoxLine == "  /MediaBox [0 0 " + Fixed2(PageW) + " " + Fixed2(PageH) + "]\n"
  {
    Fixed2Constants();
  }

  // ---------------------------------------------------------------------------
  // Content streams

  /** `escapePdfStringHex`: a PDF hexadecimal string of the UTF-16BE code units. */
  function ShowText(text: string): string {
    "<" + Ucs2HexOf(text) + ">"
  }

  /** The operators that show one placed line. */
  function LineOps(p: Placed): seq<string> {
    ["BT",
     "/F1 " + NatToString(p.fontSize) + " Tf",
     Fixed2(p.x) + " " + Fixed2(p.y) + " Td",
     ShowText(p.text) + " Tj",
     "ET"]
  }

  function PageOps(ps: seq<Placed>): seq<string> {
    FlatMap(ps, LineOps)
  }

  /** The content stream of a page: its operators, one per line, each ended by a newline. */
  function StreamOf(ps: seq<Placed>): string {
    Join(PageOps(ps), "\n") + "\n"
  }

  lemma {:induction false} FlatMapAscii<T>(xs: seq<T>, f: T -> string)
    requires forall i | 0 <= i < |xs| :: IsAscii(f(xs[i]))
    ensures IsAscii(FlatMap(xs, f))
  {
    if xs != [] {
      var init := xs[..|xs| - 1];
      assert forall i | 0 <= i < |init| :: init[i] == xs[i];
      FlatMapAscii(init, f);
      AsciiConcat(FlatMap(init, f), f(xs[|xs| - 1]));
    }
  }

  /** Five operators per line, in the order of the lines. */
  lemma {:induction false} PageOpsLayout(ps: seq<Placed>)
    ensures |PageOps(ps)| == 5 * |ps|
    ensures forall i | 0 <= i < |ps| :: PageOps(ps)[5 * i..5 * i + 5] == LineOps(ps[i])
  {
    FlatMapUniform(ps, LineOps, 5);
  }

  /** The text shown is recoverable from the hex string: nothing is lost. */
  lemma {:induction false} ShowTextRoundTrip(text: string)
    ensures var h := ShowText(text);
      |h| >= 2 && h[0] == '<' && h[|h| - 1] == '>' && DecodeUcs2Hex(h[1..|h| - 1]) == Some(text)
  {
    var h := ShowText(text);
    assert h[1..|h| - 1] == Ucs2HexOf(text);
    Ucs2HexRoundTrip(text);
  }

  lemma {:induction false} LineOpsAscii(p: Placed)
    ensures forall j | 0 <= j < |LineOps(p)| :: IsAscii(LineOps(p)[j])
  {
    NatToStringAscii(p.fontSize);
    AsciiConcat("/F1 ", NatToString(p.fontSize));
    AsciiConcat("/F1 " + NatToString(p.fontSize), " Tf");
    Fixed2Ascii(p.x);
    Fixed2Ascii(p.y);
    AsciiConcat(Fixed2(p.x), " ");
    AsciiConcat(Fixed2(p.x) + " ", Fixed2(p.y));
    AsciiConcat(Fixed2(p.x) + " " + Fixed2(p.y), " Td");
    HexUpperAscii(WithBom(Utf16(p.text)));
    AsciiConcat("<", Ucs2HexOf(p.text));
    AsciiConcat("<" + Ucs2HexOf(p.text), ">");
    AsciiConcat(ShowText(p.text), " Tj");
  }

  lemma {:induction false} PageOpsAscii(ps: seq<Placed>)
    ensures forall j | 0 <= j < |PageOps(ps)| :: IsAscii(PageOps(ps)[j])
  {
    if ps != [] {
      var init := ps[..|ps| - 1];
      PageOpsAscii(init);
      LineOpsAscii(ps[|ps| - 1]);
      var a, b := PageOps(init), LineOps(ps[|ps| - 1]);
      assert PageOps(ps) == a + b;
      forall j | 0 <= j < |a + b| ensures IsAscii((a + b)[j]) {
        if j >= |a| {
          assert (a + b)[j] == b[j - |a|];
        }
      }
    }
  }

  lemma {:induction false} StreamAscii(ps: seq<Placed>)
    ensures IsAscii(StreamOf(ps))
  {
    PageOpsAscii(ps);
    JoinAscii(PageOps(ps), "\n");
    AsciiConcat(Join(PageOps(ps), "\n"), "\n");
  }

  /** The operators of one line, as `generatePdf` pushes them. */
  method PushLineOps(ops: seq<string>, line: Placed) returns (out: seq<string>)
    ensures out == ops + LineOps(line)
  {
    var hex := Ucs2Hex(line.text);
    out := ops + ["BT"];
    out := out + ["/F1 " + NatToString(line.fontSize) + " Tf"];
    out := out + [Fixed2(line.x) + " " + Fixed2(line.y) + " Td"];
    out := out + ["<" + hex + ">" + " Tj"];
    out := out + ["ET"];
  }

  /** The loop over a page's lines and the join that makes its stream. */
  method ContentStream(ps: seq<Placed>) returns (stream: string)
    ensures stream == StreamOf(ps)
  {
    var ops: seq<string> := [];
    for j := 0 to |ps|
      invariant ops == PageOps(ps[..j])
    {
      assert ps[..j + 1][..j] == ps[..j];
      ops := PushLineOps(ops, ps[j]);
    }
    assert ps[..|ps|] == ps;
    stream := Join(ops, "\n") + "\n";
  }

  // ---------------------------------------------------------------------------
  // The objects

  /** Object 1: the composite font the content streams select as `/F1`. */
  const Type0Font: string :=
    "<< /Type /Font /Subtype /Type0 " + "/BaseFont /STSong-Light " + "/Encoding /UniGB-UCS2-H "
    + "/DescendantFonts [2 0 R] >>"

  /** Object 2: its descendant CID font, Adobe-GB1, line by line. */
  const CidFont: string := CidFontHead + CidSystemInfo + "  /FontDescriptor 3 0 R\n" + ">>"
  const CidFontHead: string := "<< /Type /Font /Subtype /CIDFontType0 " + "/BaseFont /STSong-Light\n"
  const CidSystemInfo: string := "  /CIDSystemInfo << /Registry (Adobe) " + "/Ordering (GB1) /Supplement 5 >>\n"

  /** Object 3: the font descriptor, line by line. */
  const FontDescriptor: string := DescriptorHead + DescriptorMetrics + ">>"
  const DescriptorHead: string :=
    "<< /Type /FontDescriptor " + "/FontName /STSong-Light /Flags 4 " + "/FontBBox [0 -200 1000 900]\n"
  const DescriptorMetrics: string := "  /ItalicAngle 0 /Ascent 880 " + "/Descent -120 /CapHeight 700 /StemV 80\n"

  /** A content stream object: its byte length, then the stream itself. */
  function ContentBody(stream: string): string {
    "<< /Length " + NatToString(Utf8Length(stream)) + " >>\nstream\n" + stream + "endstream"
  }

  function ContentObject(ps: seq<Placed>): string {
    ContentBody(StreamOf(ps))
  }

  /** A page dictionary, line by line: its parent, an A4 media box, the font and
      its contents. */
  function PageObject(pagesId: nat, contentId: nat): string {
    ParentLine(pagesId) + MediaBoxLine + ResourcesLine + ContentsLine(contentId) + ">>"
  }

  function ParentLine(pagesId: nat): string {
    "<< /Type /Page /Parent " + NatToString(pagesId) + " 0 R\n"
  }

  /** The media box line with the page size written out; `MediaBoxFormat` shows it is
      the line `toFixed(2)` of the page width and height gives. */
  const MediaBoxLine: string := "  /MediaBox [0 0 " + "595.28" + " " + "841.89" + "]\n"
  const ResourcesLine: string := "  /Resources << /Font << /F1 1 0 R >> >>\n"

  function ContentsLine(contentId: nat): string {
    "  /Contents " + NatToString(contentId) + " 0 R\n"
  }

  /** The references to the first `n` page objects. */
  function Kids(n: nat): (r: seq<string>) {
    if n == 0 then [] else Kids(n - 1) + [KidRef(n - 1)]
  }

  /** The reference to the page object of page `i`. */
  function KidRef(i: nat): string {
    NatToString(5 + i * 2) + " 0 R"
  }

  function PagesBody(count: nat, kids: seq<string>): string {
    "<< /Type /Pages /Count " + NatToString(count) + " /Kids [" + Join(kids, " ") + "] >>"
  }

  function PagesObject(n: nat): string {
    PagesBody(n, Kids(n))
  }

  function CatalogObject(pagesId: nat): string {
    "<< /Type /Catalog /Pages " + NatToString(pagesId) + " 0 R >>"
  }

  function PagesId(pageCount: nat): nat { 4 + pageCount * 2 }

  function CatalogId(pageCount: nat): nat { PagesId(pageCount) + 1 }

  /** The number of objects; the catalog is the last. */
  function TotalObjects(pageCount: nat): nat { CatalogId(pageCount) }

  /** Object `k` of the table for the given pages. */
  function ObjectOf(pages: seq<seq<Placed>>, k: nat): string
    requires 1 <= k <= TotalObjects(|pages|)
  {
    var n := |pages|;
    if k == 1 then Type0Font
    else if k == 2 then CidFont
    else if k == 3 then FontDescriptor
    else if k == PagesId(n) then PagesObject(n)
    else if k == CatalogId(n) then CatalogObject(PagesId(n))
    else
      // Slots 4 + 2i and 5 + 2i belong to page i.
      var i := (k - 4) / 2;
      if k % 2 == 0 then ContentObject(pages[i]) else PageObject(PagesId(n), 4 + 2 * i)
  }

  /** The object numbers: five objects besides the two per page; page `i` shows
      content stream `4 + 2i`; the Pages root lists the page objects in order and the
      Catalog is the last object and points at it. */
  lemma {:induction false} Numbering(pages: seq<seq<Placed>>)
    ensures TotalObjects(|pages|) == 5 + 2 * |pages|
    ensures ObjectOf(pages, PagesId(|pages|)) == PagesObject(|pages|)
    ensures ObjectOf(pages, TotalObjects(|pages|)) == CatalogObject(PagesId(|pages|))
  {
  }

  lemma {:induction false} PageNumbers(pages: seq<seq<Placed>>, i: nat)
    requires i < |pages|
    ensures ObjectOf(pages, 4 + 2 * i) == ContentObject(pages[i])
    ensures ObjectOf(pages, 5 + 2 * i) == PageObject(PagesId(|pages|), 4 + 2 * i)
  {
    ContentNumber(pages, i, 4 + 2 * i);
    PageNumber(pages, i, 5 + 2 * i);
  }

  lemma {:induction false} ContentNumber(pages: seq<seq<Placed>>, i: nat, k: nat)
    requires i < |pages| && k == 4 + 2 * i
    ensures ObjectOf(pages, k) == ContentObject(pages[i])
  {
    assert k % 2 == 0 && (k - 4) / 2 == i;
  }

  lemma {:induction false} PageNumber(pages: seq<seq<Placed>>, i: nat, k: nat)
    requires i < |pages| && k == 5 + 2 * i
    ensures ObjectOf(pages, k) == PageObject(PagesId(|pages|), 4 + 2 * i)
  {
    assert k % 2 == 1 && (k - 4) / 2 == i;
  }

  /** `/Kids` names page objects `5 + 2i`, one per page, in order. */
  lemma {:induction false} KidsLayout(n: nat)
    ensures |Kids(n)| == n
    ensures forall i | 0 <= i < n :: Kids(n)[i] == KidRef(i)
  {
    if n > 0 {
      KidsLayout(n - 1);
    }
  }

  /** A content stream declares its length in bytes, and since the stream is ASCII
      that is also its length in characters. */
  lemma {:induction false} ContentLength(ps: seq<Placed>)
    ensures Utf8Length(StreamOf(ps)) == |StreamOf(ps)|
    ensures ContentObject(ps)
         == "<< /Length " + NatToString(|StreamOf(ps)|) + " >>\nstream\n" + StreamOf(ps) + "endstream"
  {
    StreamAscii(ps);
    Utf8LengthAscii(StreamOf(ps));
  }

  // The fixed text of the objects, piece by piece.

  lemma {:induction false} FontTextAscii()
    ensures IsAscii("<< /Type /Font /Subtype /Type0 ") && IsAscii("/BaseFont /STSong-Light ")
  {
  }

  lemma {:induction false} FontTextAscii2()
    ensures IsAscii("/Encoding /UniGB-UCS2-H ") && IsAscii("/DescendantFonts [2 0 R] >>")
  {
  }

  lemma {:induction false} CidTextAscii()
    ensures IsAscii("<< /Type /Font /Subtype /CIDFontType0 ") && IsAscii("/BaseFont /STSong-Light\n")
  {
  }

  lemma {:induction false} CidTextAscii2()
    ensures IsAscii("  /CIDSystemInfo << /Registry (Adobe) ") && IsAscii("/Ordering (GB1) /Supplement 5 >>\n")
  {
  }

  lemma {:induction false} CidTextAscii3()
    ensures IsAscii("  /FontDescriptor 3 0 R\n") && IsAscii(">>")
  {
  }

  lemma {:induction false} DescriptorTextAscii()
    ensures IsAscii("<< /Type /FontDescriptor ") && IsAscii("/FontName /STSong-Light /Flags 4 ")
  {
  }

  lemma {:induction false} DescriptorTextAscii2()
    ensures IsAscii("/FontBBox [0 -200 1000 900]\n") && IsAscii("  /ItalicAngle 0 /Ascent 880 ")
  {
  }

  lemma {:induction false} DescriptorTextAscii3()
    ensures IsAscii("/Descent -120 /CapHeight 700 /StemV 80\n")
  {
  }

  lemma {:induction false} PageTextAscii()
    ensures IsAscii("<< /Type /Page /Parent ") && IsAscii(" 0 R\n") && IsAscii(MediaBoxLine)
  {
  }

  lemma {:induction false} PageTextAscii2()
    ensures IsAscii(ResourcesLine) && IsAscii("  /Contents ")
  {
  }

  lemma {:induction false} PagesTextAscii()
    ensures IsAscii("<< /Type /Pages /Count ") && IsAscii(" /Kids [") && IsAscii("] >>")
  {
  }

  lemma {:induction false} CatalogTextAscii()
    ensures IsAscii("<< /Type /Catalog /Pages ") && IsAscii(" 0 R >>")
  {
  }

  lemma {:induction false} ContentTextAscii()
    ensures IsAscii("<< /Length ") && IsAscii(" >>\nstream\n") && IsAscii("endstream")
  {
  }

  lemma {:induction false} ConcatAscii4(a: string, b: string, c: string, d: string)
    requires IsAscii(a) && IsAscii(b) && IsAscii(c) && IsAscii(d)
    ensures IsAscii(a + b + c + d)
  {
    AsciiConcat(a, b);
    AsciiConcat(a + b, c);
    AsciiConcat(a + b + c, d);
  }

  lemma {:induction false} ConcatAscii3(a: string, b: string, c: string)
    requires IsAscii(a) && IsAscii(b) && IsAscii(c)
    ensures IsAscii(a + b + c)
  {
    AsciiConcat(a, b);
    AsciiConcat(a + b, c);
  }

  lemma {:induction false} FontsAscii()
    ensures IsAscii(Type0Font) && IsAscii(CidFont) && IsAscii(FontDescriptor)
  {
    FontTextAscii();
    FontTextAscii2();
    ConcatAscii4("<< /Type /Font /Subtype /Type0 ", "/BaseFont /STSong-Light ", "/Encoding /UniGB-UCS2-H ",
                 "/DescendantFonts [2 0 R] >>");
    CidTextAscii();
    CidTextAscii2();
    CidTextAscii3();
    AsciiConcat("<< /Type /Font /Subtype /CIDFontType0 ", "/BaseFont /STSong-Light\n");
    AsciiConcat("  /CIDSystemInfo << /Registry (Adobe) ", "/Ordering (GB1) /Supplement 5 >>\n");
    ConcatAscii4(CidFontHead, CidSystemInfo, "  /FontDescriptor 3 0 R\n", ">>");
    DescriptorTextAscii();
    DescriptorTextAscii2();
    DescriptorTextAscii3();
    ConcatAscii3("<< /Type /FontDescriptor ", "/FontName /STSong-Light /Flags 4 ", "/FontBBox [0 -200 1000 900]\n");
    AsciiConcat("  /ItalicAngle 0 /Ascent 880 ", "/Descent -120 /CapHeight 700 /StemV 80\n");
    ConcatAscii3(DescriptorHead, DescriptorMetrics, ">>");
  }

  lemma {:induction false} PageObjectAscii(pagesId: nat, contentId: nat)
    ensures PageObject(pagesId, contentId) != "" && IsAscii(PageObject(pagesId, contentId))
  {
    PageTextAscii();
    PageTextAscii2();
    CidTextAscii3();
    NatToStringAscii(pagesId);
    NatToStringAscii(contentId);
    ConcatAscii3("<< /Type /Page /Parent ", NatToString(pagesId), " 0 R\n");
    ConcatAscii3("  /Contents ", NatToString(contentId), " 0 R\n");
    ConcatAscii4(ParentLine(pagesId), MediaBoxLine, ResourcesLine, ContentsLine(contentId));
    AsciiConcat(ParentLine(pagesId) + MediaBoxLine + ResourcesLine + ContentsLine(contentId), ">>");
  }

  lemma {:induction false} PagesObjectAscii(n: nat)
    ensures IsAscii(PagesObject(n))
  {
    PagesTextAscii();
    NatToStringAscii(n);
    KidsAscii(n);
    JoinAscii(Kids(n), " ");
    ConcatAscii4("<< /Type /Pages /Count ", NatToString(n), " /Kids [", Join(Kids(n), " "));
    AsciiConcat("<< /Type /Pages /Count " + NatToString(n) + " /Kids [" + Join(Kids(n), " "), "] >>");
  }

  lemma {:induction false} ContentObjectAscii(ps: seq<Placed>)
    ensures IsAscii(ContentObject(ps))
  {
    var s := StreamOf(ps);
    ContentTextAscii();
    StreamAscii(ps);
    NatToStringAscii(Utf8Length(s));
    ConcatAscii4("<< /Length ", NatToString(Utf8Length(s)), " >>\nstream\n", s);
    AsciiConcat("<< /Length " + NatToString(Utf8Length(s)) + " >>\nstream\n" + s, "endstream");
  }

  /** No object is empty, and every object is ASCII text. */
  lemma {:induction false} ObjectAscii(pages: seq<seq<Placed>>, k: nat)
    requires 1 <= k <= TotalObjects(|pages|)
    ensures ObjectOf(pages, k) != "" && IsAscii(ObjectOf(pages, k))
  {
    var n := |pages|;
    if k <= 3 {
      FontSlotAscii(pages, k);
    } else if k == PagesId(n) {
      PagesSlotAscii(pages);
    } else if k == CatalogId(n) {
      CatalogSlotAscii(pages);
    } else if k % 2 == 0 {
      ContentSlotAscii(pages, k);
    } else {
      PageSlotAscii(pages, k);
    }
  }

  lemma {:induction false} FontSlotAscii(pages: seq<seq<Placed>>, k: nat)
    requires 1 <= k <= 3
    ensures ObjectOf(pages, k) != "" && IsAscii(ObjectOf(pages, k))
  {
    FontsAscii();
  }

  lemma {:induction false} PagesSlotAscii(pages: seq<seq<Placed>>)
    ensures var k := PagesId(|pages|); ObjectOf(pages, k) != "" && IsAscii(ObjectOf(pages, k))
  {
    PagesObjectAscii(|pages|);
  }

  lemma {:induction false} CatalogSlotAscii(pages: seq<seq<Placed>>)
    ensures var k := CatalogId(|pages|); ObjectOf(pages, k) != "" && IsAscii(ObjectOf(pages, k))
  {
    CatalogObjectAscii(PagesId(|pages|));
  }

  lemma {:induction false} ContentSlotAscii(pages: seq<seq<Placed>>, k: nat)
    requires 4 <= k < PagesId(|pages|) && k % 2 == 0
    ensures ObjectOf(pages, k) != "" && IsAscii(ObjectOf(pages, k))
  {
    ContentObjectAscii(pages[(k - 4) / 2]);
  }

  lemma {:induction false} PageSlotAscii(pages: seq<seq<Placed>>, k: nat)
    requires 4 <= k < PagesId(|pages|) && k % 2 == 1
    ensures ObjectOf(pages, k) != "" && IsAscii(ObjectOf(pages, k))
  {
    var i := (k - 4) / 2;
    PageObjectAscii(PagesId(|pages|), 4 + 2 * i);
    assert ObjectOf(pages, k) == PageObject(PagesId(|pages|), 4 + 2 * i);
  }

  lemma {:induction false} CatalogObjectAscii(pagesId: nat)
    ensures CatalogObject(pagesId) != "" && IsAscii(CatalogObject(pagesId))
  {
    CatalogTextAscii();
    NatToStringAscii(pagesId);
    ConcatAscii3("<< /Type /Catalog /Pages ", NatToString(pagesId), " 0 R >>");
  }

  lemma {:induction false} KidsAscii(n: nat)
    ensures forall i | 0 <= i < |Kids(n)| :: IsAscii(Kids(n)[i])
  {
    if n > 0 {
      KidsAscii(n - 1);
      NatToStringAscii(5 + (n - 1) * 2);
      AsciiConcat(NatToString(5 + (n - 1) * 2), " 0 R");
      assert Kids(n) == Kids(n - 1) + [KidRef(n - 1)];
    }
  }

  // ---------------------------------------------------------------------------
  // Filling the table

  /** The content objects and page dictionaries of the pages, in order: the table
      the page loop fills, as values the loop can refer to. */
  predicate PageTable(pages: seq<seq<Placed>>, pagesId: nat, contents: seq<string>, pageObjects: seq<string>) {
    && |contents| == |pages| && |pageObjects| == |pages|
    && (forall j {:trigger pages[j]} | 0 <= j < |pages| :: contents[j] == ContentObject(pages[j]))
    && (forall j {:trigger pages[j]} | 0 <= j < |pages| :: pageObjects[j] == PageObject(pagesId, 4 + 2 * j))
  }

  /** One iteration of the page loop: the content stream and the page dictionary
      of page `i`. */
  method FillPage(objects: array<Option<string>>, pages: seq<seq<Placed>>, i: nat, pagesId: nat,
                  ghost contents: seq<string>, ghost pageObjects: seq<string>)
    requires i < |pages| && 5 + 2 * i < objects.Length
    requires PageTable(pages, pagesId, contents, pageObjects)
    modifies objects
    ensures objects[4 + 2 * i] == Some(contents[i]) && objects[5 + 2 * i] == Some(pageObjects[i])
    ensures forall k | 0 <= k < objects.Length && k != 4 + 2 * i && k != 5 + 2 * i :: objects[k] == old(objects[k])
  {
    var contentId := 4 + i * 2;
    var pageId := contentId + 1;
    var stream := ContentStream(pages[i]);
    var content := Some(ContentBody(stream));
    var page := Some(PageObject(pagesId, contentId));
    assert content == Some(ContentObject(pages[i]));
    objects[contentId] := content;
    objects[pageId] := page;
  }

  /** The page loop of `generatePdf`: the two objects of every page. */
  method FillPages(objects: array<Option<string>>, pages: seq<seq<Placed>>, pagesId: nat,
                   ghost contents: seq<string>, ghost pageObjects: seq<string>)
    requires 4 + 2 * |pages| <= objects.Length
    requires PageTable(pages, pagesId, contents, pageObjects)
    modifies objects
    ensures forall j | 0 <= j < |pages| ::
      objects[4 + 2 * j] == Some(contents[j]) && objects[5 + 2 * j] == Some(pageObjects[j])
    ensures forall k | 0 <= k < objects.Length && (k < 4 || k >= 4 + 2 * |pages|) :: objects[k] == old(objects[k])
  {
    for i := 0 to |pages|
      invariant forall j | 0 <= j < i ::
        objects[4 + 2 * j] == Some(contents[j]) && objects[5 + 2 * j] == Some(pageObjects[j])
      invariant forall k | 0 <= k < objects.Length && (k < 4 || k >= 4 + 2 * i) :: objects[k] == old(objects[k])
    {
      FillPage(objects, pages, i, pagesId, contents, pageObjects);
    }
  }

  /** The `/Kids` loop of `generatePdf`: the references to the page objects. */
  method KidRefs(pageCount: nat) returns (kids: seq<string>)
    ensures kids == Kids(pageCount)
  {
    kids := [];
    for i := 0 to pageCount
      invariant kids == Kids(i)
    {
      kids := kids + [KidRef(i)];
    }
  }

  /** The three font objects, in slots 1 to 3. */
  method FillFonts(objects: array<Option<string>>)
    requires objects.Length >= 4
    modifies objects
    ensures objects[1] == Some(Type0Font) && objects[2] == Some(CidFont) && objects[3] == Some(FontDescriptor)
    ensures forall k | 0 <= k < objects.Length && !(1 <= k <= 3) :: objects[k] == old(objects[k])
  {
    objects[1] := Some(Type0Font);
    objects[2] := Some(CidFont);
    objects[3] := Some(FontDescriptor);
  }

  /** The object table as `generatePdf` fills it: slot 0 stays empty, like the
      unused first element of the script's 1-based array. */
  method BuildObjects(pages: seq<seq<Placed>>) returns (objects: array<Option<string>>)
    ensures objects.Length == TotalObjects(|pages|) + 1 && objects[0] == None
    ensures forall k | 1 <= k <= TotalObjects(|pages|) :: objects[k] == Some(ObjectOf(pages, k))
  {
    var pageCount := |pages|;
    var pagesId := 4 + pageCount * 2;
    var catalogId := pagesId + 1;
    var totalObjects := catalogId;
    objects := new Option<string>[totalObjects + 1](_ => None);
    FillFonts(objects);
    ghost var contents, pageObjects := PageTableOf(pages, pagesId);
    FillPages(objects, pages, pagesId, contents, pageObjects);
    var kids := KidRefs(pageCount);
    objects[pagesId] := Some(PagesBody(pageCount, kids));
    objects[catalogId] := Some(CatalogObject(pagesId));
    TableSlots(objects, pages, contents, pageObjects);
  }

  /** The page table exists for every list of pages. */
  lemma {:induction false} PageTableOf(pages: seq<seq<Placed>>, pagesId: nat) returns (contents: seq<string>, pageObjects: seq<string>)
    ensures PageTable(pages, pagesId, contents, pageObjects)
  {
    contents := seq(|pages|, j requires 0 <= j < |pages| => ContentObject(pages[j]));
    pageObjects := seq(|pages|, j requires 0 <= j < |pages| => PageObject(pagesId, 4 + 2 * j));
  }

  /** A table holding the fonts, the page table, the page tree and the catalog in
      their slots holds `ObjectOf` in every slot. */
  lemma {:induction false} TableSlots(t: array<Option<string>>, pages: seq<seq<Placed>>,
                                      contents: seq<string>, pageObjects: seq<string>)
    requires t.Length == TotalObjects(|pages|) + 1
    requires t[1] == Some(Type0Font) && t[2] == Some(CidFont) && t[3] == Some(FontDescriptor)
    requires PageTable(pages, PagesId(|pages|), contents, pageObjects)
    requires forall j | 0 <= j < |pages| :: t[4 + 2 * j] == Some(contents[j]) && t[5 + 2 * j] == Some(pageObjects[j])
    requires t[PagesId(|pages|)] == Some(PagesObject(|pages|))
    requires t[CatalogId(|pages|)] == Some(CatalogObject(PagesId(|pages|)))
    ensures forall k | 1 <= k <= TotalObjects(|pages|) :: t[k] == Some(ObjectOf(pages, k))
  {
    forall k | 1 <= k <= TotalObjects(|pages|) ensures t[k] == Some(ObjectOf(pages, k)) {
      if 4 <= k < PagesId(|pages|) {
        var i := (k - 4) / 2;
        assert t[4 + 2 * i] == Some(contents[i]) && t[5 + 2 * i] == Some(pageObjects[i]);
        if k % 2 == 0 {
          ContentSlot(t, pages, contents, pageObjects, k, i);
        } else {
          PageSlot(t, pages, contents, pageObjects, k, i);
        }
      } else {
        OuterSlot(t, pages, k);
      }
    }
  }

  lemma {:induction false} ContentSlot(t: array<Option<string>>, pages: seq<seq<Placed>>,
                                       contents: seq<string>, pageObjects: seq<string>, k: nat, i: nat)
    requires PageTable(pages, PagesId(|pages|), contents, pageObjects)
    requires i < |pages| && k == 4 + 2 * i && k < t.Length && t[k] == Some(contents[i])
    ensures t[k] == Some(ObjectOf(pages, k))
  {
    ContentNumber(pages, i, k);
    assert pages[i] == pages[i];
  }

  lemma {:induction false} PageSlot(t: array<Option<string>>, pages: seq<seq<Placed>>,
                                    contents: seq<string>, pageObjects: seq<string>, k: nat, i: nat)
    requires PageTable(pages, PagesId(|pages|), contents, pageObjects)
    requires i < |pages| && k == 5 + 2 * i && k < t.Length && t[k] == Some(pageObjects[i])
    ensures t[k] == Some(ObjectOf(pages, k))
  {
    PageNumber(pages, i, k);
    assert pages[i] == pages[i];
  }

  lemma {:induction false} OuterSlot(t: array<Option<string>>, pages: seq<seq<Placed>>, k: nat)
    requires t.Length == TotalObjects(|pages|) + 1
    requires t[1] == Some(Type0Font) && t[2] == Some(CidFont) && t[3] == Some(FontDescriptor)
    requires t[PagesId(|pages|)] == Some(PagesObject(|pages|))
    requires t[CatalogId(|pages|)] == Some(CatalogObject(PagesId(|pages|)))
    requires 1 <= k <= TotalObjects(|pages|) && !(4 <= k < PagesId(|pages|))
    ensures t[k] == Some(ObjectOf(pages, k))
  {
  }

  /** The sanity check: every slot from 1 to `totalObjects` holds a non-empty
      object, or the first one that does not is reported. */
  method CheckObjects(objects: array<Option<string>>, totalObjects: nat) returns (r: Result<(), string>)
    requires totalObjects < objects.Length
    ensures r.Ok? <==> forall i | 1 <= i <= totalObjects :: objects[i].Some? && objects[i].value != ""
    ensures r.Err? ==> exists i | 1 <= i <= totalObjects ::
      (objects[i].None? || objects[i].value == "") && r.error == "Missing PDF object " + NatToString(i)
  {
    for i := 1 to totalObjects + 1
      invariant forall j | 1 <= j < i :: objects[j].Some? && objects[j].value != ""
    {
      if objects[i].None? || objects[i].value == "" {
        return Err("Missing PDF object " + NatToString(i));
      }
    }
    return Ok(());
  }

  /** Filling the table never leaves the sanity check anything to report. */
  method Objects(pages: seq<seq<Placed>>) returns (objects: array<Option<string>>, check: Result<(), string>)
    ensures objects.Length == TotalObjects(|pages|) + 1
    ensures forall k | 1 <= k <= TotalObjects(|pages|) :: objects[k] == Some(ObjectOf(pages, k))
    ensures check.Ok?
  {
    objects := BuildObjects(pages);
    forall k | 1 <= k <= TotalObjects(|pages|) ensures objects[k].Some? && objects[k].value != "" {
      ObjectAscii(pages, k);
    }
    check := CheckObjects(objects, TotalObjects(|pages|));
  }
}
