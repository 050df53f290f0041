/** `generatePdf` as a whole, and the export of a résumé record: the line stream is
    paginated, the object table is built and checked, and the file is emitted. The
    layout theorem collects what a reader of the file relies on: one byte per
    character, every cross-reference offset pointing at its object, `startxref`
    pointing at the table, and the header and `%%EOF` at the two ends. */
module ResumePdf {
  import opened Wrappers
  import opened Strings
  import opened Ucs2
  import opened ResumeLines
  import opened Paginate
  import opened PdfObjects
  import opened PdfFile

  /** `[f(a, 1), ..., f(a, m)]`. */
  function Tabulate<A, T>(m: nat, a: A, f: (A, nat) --> T): (r: seq<T>)
    requires forall k | 1 <= k <= m :: f.requires(a, k)
    ensures |r| == m
  {
    if m == 0 then [] else Tabulate(m - 1, a, f) + [f(a, m)]
  }

  lemma {:induction false} TabulateAt<A, T>(m: nat, a: A, f: (A, nat) --> T, k: nat)
    requires forall k | 1 <= k <= m :: f.requires(a, k)
    requires 1 <= k <= m
    ensures Tabulate(m, a, f)[k - 1] == f(a, k)
  {
    if k < m {
      TabulateAt(m - 1, a, f, k);
    }
  }

  lemma {:induction false} TabulateIndex<A, T>(m: nat, a: A, f: (A, nat) --> T, j: nat)
    requires forall k | 1 <= k <= m :: f.requires(a, k)
    requires j < m
    ensures Tabulate(m, a, f)[j] == f(a, j + 1)
  {
    TabulateAt(m, a, f, j + 1);
  }

  /** The object table as a sequence: entry `j` is object `j + 1`. */
  function ObjectList(pages: seq<seq<Placed>>): (r: seq<string>)
    ensures |r| == TotalObjects(|pages|)
  {
    Tabulate(TotalObjects(|pages|), pages, ObjectOf)
  }

  lemma {:induction false} ObjectListAt(pages: seq<seq<Placed>>, j: nat)
    requires j < TotalObjects(|pages|)
    ensures ObjectList(pages)[j] == ObjectOf(pages, j + 1)
  {
    TabulateIndex(TotalObjects(|pages|), pages, ObjectOf, j);
  }

  /** The text of the file `generatePdf` writes for a line stream. */
  function PdfText(ls: seq<Line>): string {
    var pages := PagesOf(ls);
    Document(ObjectList(pages), CatalogId(|pages|))
  }

  /** The bytes of that file. */
  function PdfOf(ls: seq<Line>): seq<byte> {
    Binary(PdfText(ls))
  }

  /** `generatePdf`: paginate, fill and check the table, then write the file. The
      sanity check never fails (`PdfObjects.Objects`), so no error reaches the caller. */
  method GeneratePdf(ls: seq<Line>) returns (file: seq<byte>)
    ensures file == PdfOf(ls)
  {
    var pages := Paginate.Paginate(ls);
    var objects, check := Objects(pages);
    assert check.Ok?;
    var total := TotalObjects(|pages|);
    forall j | 0 <= j < total ensures Bodies(objects, total)[j] == ObjectList(pages)[j] {
      ObjectListAt(pages, j);
    }
    assert Bodies(objects, total) == ObjectList(pages);
    file := Emit(objects, total, CatalogId(|pages|));
  }

  /** `main` without the file system: build the lines of a résumé and export them. */
  method ExportResume(r: Resume) returns (file: seq<byte>)
    ensures file == PdfOf(LinesOf(r))
  {
    var lines := BuildLines(r);
    file := GeneratePdf(lines);
  }

  // ---------------------------------------------------------------------------
  // The layout of the exported file

  lemma {:induction false} TabulateAscii<A>(m: nat, a: A, f: (A, nat) --> string)
    requires forall k | 1 <= k <= m :: f.requires(a, k) && IsAscii(f(a, k))
    ensures forall j | 0 <= j < m :: IsAscii(Tabulate(m, a, f)[j])
  {
    if m > 0 {
      TabulateAscii(m - 1, a, f);
      assert forall j | 0 <= j < m - 1 :: Tabulate(m, a, f)[j] == Tabulate(m - 1, a, f)[j];
    }
  }

  /** Every object of the table is ASCII text. */
  lemma {:induction false} ObjectListAscii(pages: seq<seq<Placed>>)
    ensures forall j | 0 <= j < |ObjectList(pages)| :: IsAscii(ObjectList(pages)[j])
  {
    forall k | 1 <= k <= TotalObjects(|pages|) ensures IsAscii(ObjectOf(pages, k)) {
      ObjectAscii(pages, k);
    }
    TabulateAscii(TotalObjects(|pages|), pages, ObjectOf);
  }

  /** The table has `5 + 2n` objects for `n` pages, and ends with the Pages root and
      the Catalog that points at it. */
  lemma {:induction false} TableShape(pages: seq<seq<Placed>>)
    ensures var bodies := ObjectList(pages);
      && |bodies| == 5 + 2 * |pages|
      && bodies[PagesId(|pages|) - 1] == PagesObject(|pages|)
      && bodies[|bodies| - 1] == CatalogObject(PagesId(|pages|))
  {
    Numbering(pages);
    ObjectListSlot(pages, PagesId(|pages|));
    ObjectListSlot(pages, TotalObjects(|pages|));
  }

  /** Object `k` sits at index `k - 1` of the list. */
  lemma {:induction false} ObjectListSlot(pages: seq<seq<Placed>>, k: nat)
    requires 1 <= k <= TotalObjects(|pages|)
    ensures ObjectList(pages)[k - 1] == ObjectOf(pages, k)
  {
    TabulateAt(TotalObjects(|pages|), pages, ObjectOf, k);
  }

  /** For any line stream, as long as the file stays below `10^10` bytes so that every
      offset fits the ten digits of its entry, the layout of `PdfFile.DocumentLayout`
      holds for the exported file. */
  lemma {:induction false} PdfLayout(ls: seq<Line>)
    requires |PdfText(ls)| < OffsetLimit
    ensures DocumentLayout(ObjectList(PagesOf(ls)), CatalogId(|PagesOf(ls)|))
  {
    ObjectListAscii(PagesOf(ls));
    DocumentLayoutHolds(ObjectList(PagesOf(ls)), CatalogId(|PagesOf(ls)|));
  }

  /** An exported résumé has at least one page, so its table holds at least seven
      objects. */
  lemma {:induction false} ResumeObjects(r: Resume)
    ensures |ObjectList(PagesOf(LinesOf(r)))| >= 7
  {
    ResumeHasPage(r);
    Numbering(PagesOf(LinesOf(r)));
  }
}
