/** The second half of `generatePdf`, second step: the bytes of the file. The header,
    then every object as `n 0 obj ... endobj`, then the cross-reference table with one
    20-byte entry per object holding its byte offset, then the trailer and the offset
    of the table (ISO 32000-1 sections 7.5.2 to 7.5.5). */
module PdfFile {
  import opened Wrappers
  import opened Strings
  import opened Ucs2
  import opened ResumeLines
  import opened Paginate
  import opened PdfObjects

  /** The version line and a comment of four characters above U+007F, which the
      final buffer writes as the bytes E2 E3 CF D3. */
  const Header: string := "%PDF-1.4\n%\U{E2}\U{E3}\U{CF}\U{D3}\n"

  /** The first line of an object. */
  function ObjTag(num: nat): string {
    NatToString(num) + " 0 obj\n"
  }

  function ObjStr(num: nat, body: string): string {
    ObjTag(num) + body + "\nendobj\n"
  }

  /** The objects `1..|bodies|` one after the other; `bodies[j]` is object `j + 1`. */
  function ObjectsText(bodies: seq<string>): string {
    if bodies == [] then "" else ObjectsText(bodies[..|bodies| - 1]) + ObjStr(|bodies|, bodies[|bodies| - 1])
  }

  /** Where each object starts: just past the objects before it. */
  function Offsets(bodies: seq<string>): (r: seq<nat>)
    ensures |r| == |bodies|
  {
    if bodies == [] then [] else Offsets(bodies[..|bodies| - 1]) + [XrefOffset(bodies[..|bodies| - 1])]
  }

  /** The offset just past `bodies`, where the cross-reference table starts: the
      header's length in UTF-16 code units (its character count, since it lies in the
      Basic Multilingual Plane, see `HeaderFacts`), then the UTF-8 byte length of
      every object. */
  function XrefOffset(bodies: seq<string>): nat {
    |Header| + Utf8Length(ObjectsText(bodies))
  }

  function XrefHead(totalObjects: nat): string {
    "xref\n0 " + NatToString(totalObjects + 1) + "\n"
  }

  /** The entry of object 0, the head of the free list. */
  const FreeEntry: string := "0000000000 65535 f \n"

  /** Generation 0, in use. */
  const InUse: string := " 00000 n \n"

  /** The entry of an object in use: its offset in ten digits. */
  function XrefEntry(offset: nat): string {
    PadStart(NatToString(offset), 10, '0') + InUse
  }

  function XrefEntries(offsets: seq<nat>): string {
    FlatMap(offsets, XrefEntry)
  }

  function TrailerText(totalObjects: nat, catalogId: nat, xrefOffset: nat): string {
    "trailer\n<< /Size " + NatToString(totalObjects + 1) + " /Root " + NatToString(catalogId) + " 0 R >>\n"
    + "startxref\n" + NatToString(xrefOffset) + "\n%%EOF\n"
  }

  /** The text of the whole file. */
  function Document(bodies: seq<string>, catalogId: nat): string {
    Header + ObjectsText(bodies) + XrefAndTrailer(bodies, catalogId)
  }

  /** What follows the last object: the cross-reference table and the trailer. */
  function XrefAndTrailer(bodies: seq<string>, catalogId: nat): string {
    XrefHead(|bodies|) + FreeEntry + XrefEntries(Offsets(bodies))
    + TrailerText(|bodies|, catalogId, XrefOffset(bodies))
  }

  /** `Buffer.from(s, "binary")`: the low byte of every UTF-16 code unit. */
  function Binary(s: string): (b: seq<byte>) {
    var u := Utf16(s);
    seq(|u|, i requires 0 <= i < |u| => u[i] % 0x100)
  }

  /** The objects of a filled table, in order. */
  function Bodies(objects: array<Option<string>>, n: nat): (r: seq<string>)
    reads objects
    requires n < objects.Length && forall i | 1 <= i <= n :: objects[i].Some?
    ensures |r| == n && forall j | 0 <= j < n :: r[j] == objects[j + 1].value
  {
    if n == 0 then [] else Bodies(objects, n - 1) + [objects[n].value]
  }

  // ---------------------------------------------------------------------------
  // Writing the file

  lemma {:induction false} BodiesSnoc(objects: array<Option<string>>, n: nat)
    requires n + 1 < objects.Length && forall i | 1 <= i <= n + 1 :: objects[i].Some?
    ensures Bodies(objects, n + 1)[..n] == Bodies(objects, n)
    ensures Bodies(objects, n + 1)[n] == objects[n + 1].value
  {
  }

  /** What one more object adds to the text and to the offsets. */
  lemma {:induction false} ObjectsSnoc(bodies: seq<string>)
    requires bodies != []
    ensures var init := bodies[..|bodies| - 1];
      && ObjectsText(bodies) == ObjectsText(init) + ObjStr(|bodies|, bodies[|bodies| - 1])
      && Offsets(bodies) == Offsets(init) + [XrefOffset(init)]
  {
  }

  /** The loop that writes the objects and records their offsets; `out` is the
      concatenation of the chunks written so far. */
  method WriteObjects(objects: array<Option<string>>, totalObjects: nat)
    returns (out: string, offsets: seq<nat>, offset: nat)
    requires totalObjects < objects.Length && forall i | 1 <= i <= totalObjects :: objects[i].Some?
    ensures var bodies := Bodies(objects, totalObjects);
      && out == Header + ObjectsText(bodies)
      && offsets == [0] + Offsets(bodies)
      && offset == XrefOffset(bodies)
  {
    out := Header;
    offsets := [0];
    offset := UnitLength(Header);
    HeaderFacts();
    for done := 0 to totalObjects
      invariant out == Header + ObjectsText(Bodies(objects, done))
      invariant offsets == [0] + Offsets(Bodies(objects, done))
      invariant offset == XrefOffset(Bodies(objects, done))
    {
      var objNum := done + 1;
      ghost var before := Bodies(objects, done);
      ghost var next := Bodies(objects, objNum);
      BodiesSnoc(objects, done);
      ObjectsSnoc(next);
      offsets := offsets + [offset];
      Assoc([0], Offsets(before), [offset]);
      var objStr := ObjStr(objNum, objects[objNum].value);
      out := out + objStr;
      Assoc(Header, ObjectsText(before), objStr);
      Utf8LengthAppend(ObjectsText(before), objStr);
      offset := offset + Utf8Length(objStr);
    }
  }

  lemma {:induction false} XrefEntriesSnoc(offsets: seq<nat>, i: nat)
    requires 1 <= i < |offsets|
    ensures XrefEntries(offsets[1..i + 1]) == XrefEntries(offsets[1..i]) + XrefEntry(offsets[i])
  {
    assert offsets[1..i + 1][..i - 1] == offsets[1..i];
  }

  /** The loop that writes one cross-reference entry per object. */
  method WriteXref(out: string, offsets: seq<nat>) returns (r: string)
    requires |offsets| > 0
    ensures r == out + XrefEntries(offsets[1..])
  {
    r := out;
    for i := 1 to |offsets|
      invariant r == out + XrefEntries(offsets[1..i])
    {
      XrefEntriesSnoc(offsets, i);
      Assoc(out, XrefEntries(offsets[1..i]), XrefEntry(offsets[i]));
      r := r + XrefEntry(offsets[i]);
    }
    assert offsets[1..|offsets|] == offsets[1..];
  }

  lemma {:induction false} Assoc4<T>(x: seq<T>, a: seq<T>, b: seq<T>, c: seq<T>, d: seq<T>)
    ensures x + a + b + c + d == x + (a + b + c + d)
  {
  }

  /** The emission half of `generatePdf`, over a filled table. */
  method Emit(objects: array<Option<string>>, totalObjects: nat, catalogId: nat) returns (file: seq<byte>)
    requires totalObjects < objects.Length && forall i | 1 <= i <= totalObjects :: objects[i].Some?
    ensures file == Binary(Document(Bodies(objects, totalObjects), catalogId))
  {
    ghost var bodies := Bodies(objects, totalObjects);
    var out, offsets, offset := WriteObjects(objects, totalObjects);
    ghost var head := out;
    var xrefOffset := offset;
    out := out + XrefHead(totalObjects);
    out := out + FreeEntry;
    out := WriteXref(out, offsets);
    assert offsets[1..] == Offsets(bodies);
    out := out + TrailerText(totalObjects, catalogId, xrefOffset);
    Assoc4(head, XrefHead(totalObjects), FreeEntry, XrefEntries(Offsets(bodies)),
      TrailerText(totalObjects, catalogId, xrefOffset));
    file := Binary(out);
  }

  // ---------------------------------------------------------------------------
  // The layout of the file

  /** Every character is below U+0100, so the final buffer holds one byte for it. */
  predicate Narrow(s: string) {
    forall i | 0 <= i < |s| :: s[i] as int < 0x100
  }

  lemma {:induction false} Utf16Narrow(s: string)
    requires Narrow(s)
    ensures |Utf16(s)| == |s| && forall i | 0 <= i < |s| :: Utf16(s)[i] == s[i] as int
  {
    if s != [] {
      Utf16Narrow(s[1..]);
      assert Utf16(s) == [s[0] as int] + Utf16(s[1..]);
    }
  }

  /** On such text the buffer is one byte per character, the character's code. */
  lemma {:induction false} BinaryNarrow(s: string)
    requires Narrow(s)
    ensures |Binary(s)| == |s| && forall i | 0 <= i < |s| :: Binary(s)[i] == s[i] as int
  {
    Utf16Narrow(s);
  }

  lemma {:induction false} AsciiNarrow(s: string)
    requires IsAscii(s)
    ensures Narrow(s)
  {
  }

  lemma {:induction false} NarrowConcat(a: string, b: string)
    requires Narrow(a) && Narrow(b)
    ensures Narrow(a + b)
  {
    forall i | 0 <= i < |a + b| ensures (a + b)[i] as int < 0x100 {
      if i >= |a| {
        assert (a + b)[i] == b[i - |a|];
      }
    }
  }

  /** The header is 15 characters, 15 code units and 15 bytes. */
  lemma {:induction false} HeaderFacts()
    ensures |Header| == 15 && UnitLength(Header) == 15 && Narrow(Header)
  {
    assert AllBmp(Header);
    UnitLengthBmp(Header);
  }

  lemma {:induction false} ObjStrAscii(num: nat, body: string)
    requires IsAscii(body)
    ensures IsAscii(ObjTag(num)) && IsAscii(ObjStr(num, body))
  {
    NatToStringAscii(num);
    AsciiConcat(NatToString(num), " 0 obj\n");
    ConcatAscii3(ObjTag(num), body, "\nendobj\n");
  }

  lemma {:induction false} ObjectsTextAscii(bodies: seq<string>)
    requires forall j | 0 <= j < |bodies| :: IsAscii(bodies[j])
    ensures IsAscii(ObjectsText(bodies))
  {
    if bodies != [] {
      var init := bodies[..|bodies| - 1];
      ObjectsTextAscii(init);
      ObjStrAscii(|bodies|, bodies[|bodies| - 1]);
      AsciiConcat(ObjectsText(init), ObjStr(|bodies|, bodies[|bodies| - 1]));
    }
  }

  /** Offset `k` counts the header and the objects before object `k + 1`. */
  lemma {:induction false} OffsetAt(bodies: seq<string>, k: nat)
    requires k < |bodies|
    ensures |Offsets(bodies)| == |bodies| && Offsets(bodies)[k] == XrefOffset(bodies[..k])
  {
    var init := bodies[..|bodies| - 1];
    ObjectsSnoc(bodies);
    if k < |init| {
      OffsetAt(init, k);
      assert init[..k] == bodies[..k];
    } else {
      OffsetAt0(init);
    }
  }

  lemma {:induction false} OffsetAt0(bodies: seq<string>)
    ensures |Offsets(bodies)| == |bodies|
  {
    if bodies != [] {
      OffsetAt0(bodies[..|bodies| - 1]);
    }
  }

  /** One more object moves the running offset by that object's byte length. */
  lemma {:induction false} XrefOffsetSnoc(bodies: seq<string>, k: nat)
    requires k < |bodies|
    ensures XrefOffset(bodies[..k + 1]) == XrefOffset(bodies[..k]) + Utf8Length(ObjStr(k + 1, bodies[k]))
  {
    var b := bodies[..k + 1];
    ObjectsSnoc(b);
    assert b[..|b| - 1] == bodies[..k];
    Utf8LengthAppend(ObjectsText(bodies[..k]), ObjStr(k + 1, bodies[k]));
  }

  /** The offsets the cross-reference table records: the first object starts right
      after the 15-character header, each next one after the bytes of the one before,
      and the table itself right after the last object. */
  lemma {:induction false} OffsetsLayout(bodies: seq<string>)
    ensures |Offsets(bodies)| == |bodies|
    ensures |bodies| > 0 ==> Offsets(bodies)[0] == 15
    ensures forall k | 0 < k < |bodies| ::
      Offsets(bodies)[k] == Offsets(bodies)[k - 1] + Utf8Length(ObjStr(k, bodies[k - 1]))
    ensures |bodies| > 0 ==>
      XrefOffset(bodies) == Offsets(bodies)[|bodies| - 1] + Utf8Length(ObjStr(|bodies|, bodies[|bodies| - 1]))
  {
    OffsetAt0(bodies);
    HeaderFacts();
    if |bodies| > 0 {
      OffsetAt(bodies, 0);
      assert bodies[..0] == [];
      OffsetAt(bodies, |bodies| - 1);
      XrefOffsetSnoc(bodies, |bodies| - 1);
      assert bodies[..|bodies|] == bodies;
    }
    forall k | 0 < k < |bodies|
      ensures Offsets(bodies)[k] == Offsets(bodies)[k - 1] + Utf8Length(ObjStr(k, bodies[k - 1]))
    {
      OffsetAt(bodies, k);
      OffsetAt(bodies, k - 1);
      XrefOffsetSnoc(bodies, k - 1);
    }
  }

  lemma {:induction false} ObjectsTextPrefix(bodies: seq<string>, m: nat)
    requires m <= |bodies|
    ensures StartsWith(ObjectsText(bodies), ObjectsText(bodies[..m]))
    decreases |bodies| - m
  {
    if m == |bodies| {
      assert bodies[..m] == bodies;
    } else {
      var init := bodies[..|bodies| - 1];
      ObjectsSnoc(bodies);
      ObjectsTextPrefix(init, m);
      assert init[..m] == bodies[..m];
      var p, q := ObjectsText(bodies[..m]), ObjectsText(init);
      assert ObjectsText(bodies)[..|q|] == q;
      assert q[..|p|] == p;
    }
  }

  /** A piece of a prefix of `objs` sits at the same place in that prefix's
      extensions. */
  lemma {:induction false} PieceInPrefix(objs: string, p: string, lo: nat, t: string)
    requires StartsWith(objs, p) && lo + |t| <= |p| && p[lo..lo + |t|] == t
    ensures lo + |t| <= |objs| && objs[lo..lo + |t|] == t
  {
    forall i | 0 <= i < |t| ensures objs[lo + i] == t[i] {
      assert objs[lo + i] == objs[..|p|][lo + i] == p[lo + i];
    }
  }

  /** A piece keeps its place, shifted by `|h|`, once `objs` sits between `h` and `rest`. */
  lemma {:induction false} PieceShift(h: string, objs: string, rest: string, lo: nat, t: string)
    requires lo + |t| <= |objs| && objs[lo..lo + |t|] == t
    ensures |h| + lo + |t| <= |h + objs + rest| && (h + objs + rest)[|h| + lo..|h| + lo + |t|] == t
  {
    var d := h + objs + rest;
    forall i | 0 <= i < |t| ensures d[|h| + lo + i] == t[i] {
      assert d[|h| + lo + i] == objs[lo + i];
    }
  }

  lemma {:induction false} TagInObject(a: string, t: string, body: string, end: string)
    ensures (a + (t + body + end))[|a|..|a| + |t|] == t
  {
  }

  /** In the objects' text, object `k + 1` starts right after the first `k`. */
  lemma {:induction false} TagInText(bodies: seq<string>, k: nat)
    requires k < |bodies|
    ensures var lo, t := |ObjectsText(bodies[..k])|, ObjTag(k + 1);
      lo + |t| <= |ObjectsText(bodies)| && ObjectsText(bodies)[lo..lo + |t|] == t
  {
    var a := ObjectsText(bodies[..k]);
    var t := ObjTag(k + 1);
    var p := ObjectsText(bodies[..k + 1]);
    assert p == a + ObjStr(k + 1, bodies[k]) by {
      var b := bodies[..k + 1];
      ObjectsSnoc(b);
      assert b[..|b| - 1] == bodies[..k];
    }
    TagInObject(a, t, bodies[k], "\nendobj\n");
    ObjectsTextPrefix(bodies, k + 1);
    PieceInPrefix(ObjectsText(bodies), p, |a|, t);
  }

  lemma {:induction false} OffsetIsLength(bodies: seq<string>, k: nat)
    requires forall j | 0 <= j < |bodies| :: IsAscii(bodies[j])
    requires k < |bodies|
    ensures Offsets(bodies)[k] == |Header| + |ObjectsText(bodies[..k])|
  {
    var a := ObjectsText(bodies[..k]);
    OffsetAt(bodies, k);
    HeaderFacts();
    ObjectsTextAscii(bodies[..k]);
    Utf8LengthAscii(a);
  }

  /** Offset `k` points at the first line of object `k + 1`, whatever follows the
      objects. */
  lemma {:induction false} ObjectAt(bodies: seq<string>, rest: string, k: nat)
    requires forall j | 0 <= j < |bodies| :: IsAscii(bodies[j])
    requires k < |bodies|
    ensures var d, o, t := Header + ObjectsText(bodies) + rest, Offsets(bodies)[k], ObjTag(k + 1);
      o + |t| <= |d| && d[o..o + |t|] == t
  {
    OffsetIsLength(bodies, k);
    TagInText(bodies, k);
    PieceShift(Header, ObjectsText(bodies), rest, |ObjectsText(bodies[..k])|, ObjTag(k + 1));
  }

  /** The offset just past the objects points at what follows them. */
  lemma {:induction false} RestAt(bodies: seq<string>, rest: string)
    requires forall j | 0 <= j < |bodies| :: IsAscii(bodies[j])
    ensures var d, x := Header + ObjectsText(bodies) + rest, XrefOffset(bodies);
      x + |rest| == |d| && d[x..] == rest
  {
    var a := ObjectsText(bodies);
    HeaderFacts();
    ObjectsTextAscii(bodies);
    Utf8LengthAscii(a);
    assert (Header + a + rest)[|Header + a|..] == rest;
  }

  lemma {:induction false} XrefAndTrailerStart(bodies: seq<string>, catalogId: nat)
    ensures var x := XrefAndTrailer(bodies, catalogId); |x| >= 5 && x[..5] == "xref\n"
  {
    var h := XrefHead(|bodies|);
    assert h[..5] == "xref\n";
    var x := XrefAndTrailer(bodies, catalogId);
    assert x[..5] == h[..5];
  }

  /** `startxref` points at the keyword that opens the table. */
  lemma {:induction false} XrefAt(bodies: seq<string>, catalogId: nat)
    requires forall j | 0 <= j < |bodies| :: IsAscii(bodies[j])
    ensures var d, x := Document(bodies, catalogId), XrefOffset(bodies);
      x + 5 <= |d| && d[x..x + 5] == "xref\n"
  {
    var rest := XrefAndTrailer(bodies, catalogId);
    RestAt(bodies, rest);
    XrefAndTrailerStart(bodies, catalogId);
    var d, x := Document(bodies, catalogId), XrefOffset(bodies);
    assert d[x..x + 5] == d[x..][..5];
  }

  // ---------------------------------------------------------------------------
  // The cross-reference table

  /** An entry is 20 bytes: the offset in ten digits, then ` 00000 n ` and an end
      of line. */
  /** The largest offset a ten-digit field holds, plus one. */
  const OffsetLimit: nat := 10_000_000_000

  lemma {:induction false} OffsetLimitPow()
    ensures Pow10(10) == OffsetLimit
  {
    assert Pow10(5) == 100_000;
  }

  lemma {:induction false} XrefEntryShape(offset: nat)
    requires offset < OffsetLimit
    ensures var e := XrefEntry(offset);
      && |e| == 20 && IsDigits(e[..10]) && DigitsValue(e[..10]) == offset
      && e[10..] == InUse && IsAscii(e)
  {
    var d := PadStart(NatToString(offset), 10, '0');
    OffsetLimitPow();
    PadDigits(offset, 10);
    var e := XrefEntry(offset);
    assert e[..10] == d && e[10..] == InUse;
    DigitsAscii(d);
    InUseAscii();
    AsciiConcat(d, InUse);
  }

  lemma {:induction false} InUseAscii()
    ensures |InUse| == 10 && IsAscii(InUse)
  {
  }

  lemma {:induction false} FreeEntryShape()
    ensures |FreeEntry| == 20 && IsAscii(FreeEntry)
  {
  }

  lemma {:induction false} XrefEntriesAscii(offsets: seq<nat>)
    requires forall j | 0 <= j < |offsets| :: offsets[j] < OffsetLimit
    ensures IsAscii(XrefEntries(offsets))
  {
    forall j | 0 <= j < |offsets| ensures IsAscii(XrefEntry(offsets[j])) {
      XrefEntryShape(offsets[j]);
    }
    FlatMapAscii(offsets, XrefEntry);
  }

  /** Entry `j` of the table sits 20 bytes after entry `j - 1`. */
  lemma {:induction false} XrefEntriesLayout(offsets: seq<nat>)
    requires forall j | 0 <= j < |offsets| :: offsets[j] < OffsetLimit
    ensures |XrefEntries(offsets)| == 20 * |offsets| && IsAscii(XrefEntries(offsets))
    ensures forall j | 0 <= j < |offsets| ::
      XrefEntries(offsets)[20 * j..20 * j + 20] == XrefEntry(offsets[j])
  {
    forall j | 0 <= j < |offsets| ensures |XrefEntry(offsets[j])| == 20 && IsAscii(XrefEntry(offsets[j])) {
      XrefEntryShape(offsets[j]);
    }
    FlatMapUniform(offsets, XrefEntry, 20);
    FlatMapAscii(offsets, XrefEntry);
  }

  // ---------------------------------------------------------------------------
  // The whole text

  lemma {:induction false} TrailerAscii(totalObjects: nat, catalogId: nat, xrefOffset: nat)
    ensures IsAscii(TrailerText(totalObjects, catalogId, xrefOffset))
  {
    NatToStringAscii(totalObjects + 1);
    NatToStringAscii(catalogId);
    NatToStringAscii(xrefOffset);
    var a := "trailer\n<< /Size " + NatToString(totalObjects + 1) + " /Root ";
    ConcatAscii3("trailer\n<< /Size ", NatToString(totalObjects + 1), " /Root ");
    ConcatAscii3(a, NatToString(catalogId), " 0 R >>\n");
    var b := a + NatToString(catalogId) + " 0 R >>\n";
    ConcatAscii4(b, "startxref\n", NatToString(xrefOffset), "\n%%EOF\n");
  }

  lemma {:induction false} XrefHeadAscii(totalObjects: nat)
    ensures IsAscii(XrefHead(totalObjects))
  {
    NatToStringAscii(totalObjects + 1);
    ConcatAscii3("xref\n0 ", NatToString(totalObjects + 1), "\n");
  }

  lemma {:induction false} TableAscii(totalObjects: nat, catalogId: nat, entries: string, xrefOffset: nat)
    requires IsAscii(entries)
    ensures IsAscii(XrefHead(totalObjects) + FreeEntry + entries + TrailerText(totalObjects, catalogId, xrefOffset))
  {
    XrefHeadAscii(totalObjects);
    FreeEntryShape();
    TrailerAscii(totalObjects, catalogId, xrefOffset);
    ConcatAscii4(XrefHead(totalObjects), FreeEntry, entries, TrailerText(totalObjects, catalogId, xrefOffset));
  }

  lemma {:induction false} XrefAndTrailerAscii(bodies: seq<string>, catalogId: nat)
    requires forall j | 0 <= j < |bodies| :: Offsets(bodies)[j] < OffsetLimit
    ensures IsAscii(XrefAndTrailer(bodies, catalogId))
  {
    XrefEntriesAscii(Offsets(bodies));
    TableAscii(|bodies|, catalogId, XrefEntries(Offsets(bodies)), XrefOffset(bodies));
  }

  /** With ASCII objects the whole text is below U+0100, so the buffer holds one
      byte per character. */
  lemma {:induction false} DocumentNarrow(bodies: seq<string>, catalogId: nat)
    requires forall j | 0 <= j < |bodies| :: IsAscii(bodies[j])
    requires forall j | 0 <= j < |bodies| :: Offsets(bodies)[j] < OffsetLimit
    ensures Narrow(Document(bodies, catalogId))
  {
    HeaderFacts();
    ObjectsTextAscii(bodies);
    AsciiNarrow(ObjectsText(bodies));
    XrefAndTrailerAscii(bodies, catalogId);
    AsciiNarrow(XrefAndTrailer(bodies, catalogId));
    NarrowConcat(Header, ObjectsText(bodies));
    NarrowConcat(Header + ObjectsText(bodies), XrefAndTrailer(bodies, catalogId));
  }

  /** The file opens with the header and closes with the table's offset and `%%EOF`. */
  lemma {:induction false} DocumentEnds(bodies: seq<string>, catalogId: nat)
    ensures var d := Document(bodies, catalogId);
      && StartsWith(d, Header)
      && EndsWith(d, "startxref\n" + NatToString(XrefOffset(bodies)) + "\n%%EOF\n")
  {
    var tail := "startxref\n" + NatToString(XrefOffset(bodies)) + "\n%%EOF\n";
    TrailerEnds(|bodies|, catalogId, XrefOffset(bodies));
    EndsWithAfter(XrefHead(|bodies|) + FreeEntry + XrefEntries(Offsets(bodies)),
                  TrailerText(|bodies|, catalogId, XrefOffset(bodies)), tail);
    EndsWithAfter(Header + ObjectsText(bodies), XrefAndTrailer(bodies, catalogId), tail);
    StartsWithBefore(Header, ObjectsText(bodies));
    StartsWithLonger(Header + ObjectsText(bodies), XrefAndTrailer(bodies, catalogId), Header);
  }

  /** The trailer closes with `startxref`, the offset and `%%EOF`. */
  lemma {:induction false} TrailerEnds(totalObjects: nat, catalogId: nat, xrefOffset: nat)
    ensures EndsWith(TrailerText(totalObjects, catalogId, xrefOffset),
                     "startxref\n" + NatToString(xrefOffset) + "\n%%EOF\n")
  {
    var pre := "trailer\n<< /Size " + NatToString(totalObjects + 1) + " /Root " + NatToString(catalogId) + " 0 R >>\n";
    EndsWithAfter(pre, "startxref\n", "startxref\n");
    EndsWithBoth(pre + "startxref\n", "startxref\n", NatToString(xrefOffset));
    EndsWithBoth(pre + "startxref\n" + NatToString(xrefOffset), "startxref\n" + NatToString(xrefOffset), "\n%%EOF\n");
  }

  // ---------------------------------------------------------------------------
  // The layout as a whole

  /** What a reader of the file relies on: the buffer holds one byte per character
      with that character's code; offset `k` of the table points at `k + 1 0 obj`;
      `startxref` names the offset of `xref`; the file opens with the header and
      closes with `%%EOF`. */
  predicate DocumentLayout(bodies: seq<string>, catalogId: nat) {
    var d, f := Document(bodies, catalogId), Binary(Document(bodies, catalogId));
    var x := XrefOffset(bodies);
    && |f| == |d| && (forall i | 0 <= i < |d| :: f[i] == d[i] as int)
    && (forall k | 0 <= k < |bodies| ::
          Offsets(bodies)[k] + |ObjTag(k + 1)| <= |d|
          && d[Offsets(bodies)[k]..Offsets(bodies)[k] + |ObjTag(k + 1)|] == ObjTag(k + 1))
    && x + 5 <= |d| && d[x..x + 5] == "xref\n"
    && StartsWith(d, Header)
    && EndsWith(d, "startxref\n" + NatToString(x) + "\n%%EOF\n")
  }

  /** Offsets lie inside the file. */
  lemma {:induction false} OffsetsInside(bodies: seq<string>, catalogId: nat)
    requires forall j | 0 <= j < |bodies| :: IsAscii(bodies[j])
    ensures forall j | 0 <= j < |bodies| :: Offsets(bodies)[j] < |Document(bodies, catalogId)|
  {
    forall j | 0 <= j < |bodies| ensures Offsets(bodies)[j] < |Document(bodies, catalogId)| {
      ObjectAt(bodies, XrefAndTrailer(bodies, catalogId), j);
    }
  }

  lemma {:induction false} ObjectsInPlace(bodies: seq<string>, catalogId: nat)
    requires forall j | 0 <= j < |bodies| :: IsAscii(bodies[j])
    ensures var d := Document(bodies, catalogId);
      forall k | 0 <= k < |bodies| ::
        Offsets(bodies)[k] + |ObjTag(k + 1)| <= |d|
        && d[Offsets(bodies)[k]..Offsets(bodies)[k] + |ObjTag(k + 1)|] == ObjTag(k + 1)
  {
    forall k | 0 <= k < |bodies|
      ensures Offsets(bodies)[k] + |ObjTag(k + 1)| <= |Document(bodies, catalogId)|
        && Document(bodies, catalogId)[Offsets(bodies)[k]..Offsets(bodies)[k] + |ObjTag(k + 1)|] == ObjTag(k + 1)
    {
      ObjectAt(bodies, XrefAndTrailer(bodies, catalogId), k);
    }
  }

  /** With ASCII objects and a file below `10^10` bytes, the layout holds. */
  lemma {:induction false} DocumentLayoutHolds(bodies: seq<string>, catalogId: nat)
    requires forall j | 0 <= j < |bodies| :: IsAscii(bodies[j])
    requires |Document(bodies, catalogId)| < OffsetLimit
    ensures DocumentLayout(bodies, catalogId)
  {
    OffsetsInside(bodies, catalogId);
    DocumentNarrow(bodies, catalogId);
    BinaryNarrow(Document(bodies, catalogId));
    ObjectsInPlace(bodies, catalogId);
    XrefAt(bodies, catalogId);
    DocumentEnds(bodies, catalogId);
  }
}
