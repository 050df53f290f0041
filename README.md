# A verified model of the résumé site's PDF export and its helpers

The repository is a personal résumé website with two offline Node scripts. The
centre of this model is the résumé-to-PDF export (`scripts/generate_resume_pdf.mjs`).
It sanitises a résumé record, turns it into a stream of styled lines, wraps and
paginates them on A4 pages, and writes a PDF by hand: font objects, one content stream
and one page object per page, the page tree, the catalog, the cross-reference table
and the trailer.

Around it the model covers four smaller parts:

- the pure helpers of the website (`src/app.js`): date ranges, tag normalisation, tag
  collection and project filtering, the PDF-link test, and the hero and experience
  card texts;
- the argument, `.env` and per-item rules of the image generator
  (`scripts/generate_portfolio_images.mjs`): `WxH` sizes, `--only` patterns, argv
  parsing, settings, the crop arithmetic, the `only`/`limit` filter and the retry
  loop;
- the particle-pool bookkeeping of the cursor trail (`src/mouse-move-fx.js`);
- the JavaScript string built-ins the code relies on (`trim`, `indexOf`,
  `lastIndexOf`, `split`, `join`, `String(n)`, `padStart`), in `Strings`.

Modules follow the program's structure:

| module | file | models |
|---|---|---|
| `Wrappers` | wrappers.dfy | `Option` and `Result` |
| `Strings` | strings.dfy | JavaScript white space, trim, search, split/join, decimal digits |
| `ResumeText` | resume_text.dfy | `isTodo`, `safeText` and `formatRange` of the PDF script |
| `Ucs2` | ucs2.dfy | `ucs2Hex`: UTF-16 code units, the in-place byte swap, upper-case hex |
| `Wrap` | wrap.dfy | `wrapText`: white-space collapsing and greedy fixed-width pieces |
| `ResumeLines` | resume_lines.dfy | `buildLines`: the résumé record and the line stream it yields |
| `Paginate` | paginate.dfy | the `y`/`cur`/`pages` cursor of `generatePdf` (class `Paginator`) |
| `PdfObjects` | pdf_objects.dfy | content streams, page, page-tree and catalog objects, the object table and its check |
| `PdfFile` | pdf_file.dfy | header, object offsets, cross-reference table, trailer, the byte conversion |
| `ResumePdf` | resume_pdf.dfy | `generatePdf` as a whole, the export of a record, the layout theorem |
| `Site` | site.dfy | the `app.js` helpers |
| `ImageArgs` | image_args.dfy | `parseWxH`, `parseMaybeRegex`, `parseArgs` and the settings `main` derives |
| `DotEnv` | dot_env.dfy | `loadDotEnv` and `getApiKey` |
| `ImagePipeline` | image_pipeline.dfy | `cropToAspect`, the `only`/`limit` filter, the retry loop |
| `Particles` | particles.dfy | `clamp`, the particle pool, `spawn`, `updateTrail`, the cull loop of `draw`, the frame delta |

How the source's values are represented:

- A JSON value that may be missing is an `Option<string>`: `None` stands for `null` and
  `undefined`.
- Strings are sequences of Unicode scalar values. UTF-16 code units are computed
  explicitly, surrogate pairs included, wherever the source counts `.length`.
- Page geometry is in hundredths of a point: `PAGE_H` 841.89 is 84189 and the margin
  42 is 4200. In these units every position the layout computes is an integer.
- `maxCharsFor` is the exact table its formula gives: h1 30, h2 39, h3 46, meta 55,
  body 50. `Paginate.MaxCharsFormula` states that formula.
- The PDF file is built as text. It becomes bytes through `Buffer.from(…, "binary")`,
  which keeps the low byte of each UTF-16 unit.
- Imperative code is modelled as imperative code:
  - `ucs2Hex` swaps the bytes of an array in place.
  - `wrapText`, `buildLines`, `collectTags`, `parseArgs`, `loadDotEnv`, the retry loop
    and the cull loop are `while`/`for` loops with invariants.
  - The pagination cursor and the particle pool are classes whose methods update their
    fields.
  - The object table is an `array` filled by index and then checked.
- Each method that computes a value is proved against a function that specifies it,
  and the properties are proved about those functions. The class methods state their
  whole new state.

## Model

| member | source | states |
|---|---|---|
| ResumeText.IsTodoOfAbsent | scripts/generate_resume_pdf.mjs:11-14 | a missing value is never a placeholder |
| ResumeText.SafeText | scripts/generate_resume_pdf.mjs:16-21 | the result is "" exactly when the value is missing, blank, or starts with "TODO" once trimmed; otherwise it is the trimmed value; it is always trimmed and never starts with "TODO" |
| ResumeText.SafeTextIdempotent | scripts/generate_resume_pdf.mjs:16-21 | sanitising a sanitised value changes nothing |
| ResumeText.SafeTextOfClean | scripts/generate_resume_pdf.mjs:16-21 | a non-empty trimmed text without the marker passes unchanged |
| ResumeText.FormatRange | scripts/generate_resume_pdf.mjs:54-61 | the range is "" exactly when both ends sanitise to ""; with no start it is the sanitised end; it never starts with "TODO" |
| ResumeText.FormatRangeShape | scripts/generate_resume_pdf.mjs:54-61 | a present start opens the range followed by " – "; a missing end closes it with " – 至今"; a present end closes it |
| ResumeText.FormatRangeBoth | scripts/generate_resume_pdf.mjs:57 | "2020", "2022" give "2020 – 2022" |
| ResumeText.FormatRangeOpenEnded | scripts/generate_resume_pdf.mjs:58 | a start alone gives "2020 – 至今" |
| ResumeText.FormatRangeEndOnly | scripts/generate_resume_pdf.mjs:59 | an end alone is returned as it is |
| ResumeText.FormatRangePlaceholders | scripts/generate_resume_pdf.mjs:55-60 | a placeholder start and a blank end give "" |
| Ucs2.Utf16Length | scripts/generate_resume_pdf.mjs:25 | the UTF-16 encoding has one unit per BMP character and two per other character |
| Ucs2.UnitLengthBmp | scripts/generate_resume_pdf.mjs:25 | text inside the BMP has as many code units as characters |
| Ucs2.SwappedPairs | scripts/generate_resume_pdf.mjs:27-31 | swapping each byte pair of the little-endian bytes gives the big-endian bytes |
| Ucs2.UpperOfHexLower | scripts/generate_resume_pdf.mjs:32 | upper-casing lower-case hex gives the upper-case hex of the same bytes |
| Ucs2.Ucs2Hex | scripts/generate_resume_pdf.mjs:23-33 | the in-place swap loop returns the upper-case hex of FE FF followed by the big-endian code units |
| Ucs2.Ucs2HexLayout | scripts/generate_resume_pdf.mjs:23-33 | the hex starts with "FEFF", has 4 + 4·(code units) digits, and the 4 digits of each unit are that unit, high byte first |
| Ucs2.Ucs2HexRoundTrip | scripts/generate_resume_pdf.mjs:23-33 | decoding the hex (BOM, big-endian units, surrogate pairs) gives back the original text |
| Ucs2.DecodeUtf16RoundTrip | scripts/generate_resume_pdf.mjs:25 | the UTF-16 encoding is decodable back to the text |
| Wrap.CollapseShape | scripts/generate_resume_pdf.mjs:36 | the collapsed text is trimmed, has only single plain spaces as white space, and keeps every other character in order |
| Wrap.CollapseIdempotent | scripts/generate_resume_pdf.mjs:36 | collapsing twice is collapsing once |
| Wrap.PiecesConcat | scripts/generate_resume_pdf.mjs:39-51 | the pieces concatenate to the pending buffer followed by the unread text |
| Wrap.PiecesNonEmpty | scripts/generate_resume_pdf.mjs:43-50 | no piece is empty when the width is at least 1 |
| Wrap.PiecesUnits | scripts/generate_resume_pdf.mjs:42-49 | every piece but the last has between max and max+1 code units, and none has more than max+1 |
| Wrap.PiecesBmp | scripts/generate_resume_pdf.mjs:42-49 | for BMP text every piece but the last has exactly max characters and the last at most max |
| Wrap.WrapPiecesProperties | scripts/generate_resume_pdf.mjs:35-52 | no pieces exactly when the collapsed text is empty; the pieces concatenate to the collapsed text; the width bounds above |
| Wrap.WrapText | scripts/generate_resume_pdf.mjs:35-52 | the loop over characters with its `cur` buffer returns exactly those pieces |
| ResumeLines.NameLineStart | scripts/generate_resume_pdf.mjs:67-73 | the title starts with the name or "（未填写姓名）", it is followed by "｜headline" exactly when there is a headline, and its first character is not a space |
| ResumeLines.NameLineClean | scripts/generate_resume_pdf.mjs:67-73 | the title is never empty and never starts with "TODO" |
| ResumeLines.HeaderFacts | scripts/generate_resume_pdf.mjs:73-75 | the header opens with the one h1 and holds no heading and no small spacer |
| ResumeLines.JoinPresentClean | scripts/generate_resume_pdf.mjs:74 | a "｜"-join of clean parts never starts with "TODO" and is "" exactly when every part is |
| ResumeLines.LinkTextClean | scripts/generate_resume_pdf.mjs:78-85 | a link line never starts with "TODO" and is non-empty exactly when the url is usable |
| ResumeLines.LinkTextsNonEmpty | scripts/generate_resume_pdf.mjs:78-86 | the links section has lines exactly when some link has a usable url |
| ResumeLines.LinksBody | scripts/generate_resume_pdf.mjs:86-90 | the links block is clean, and carries the heading 链接 exactly when some link is usable |
| ResumeLines.HighlightsBody | scripts/generate_resume_pdf.mjs:92-100 | the highlights block carries 核心亮点 exactly when the array is non-empty |
| ResumeLines.ExperienceLinesBody | scripts/generate_resume_pdf.mjs:106-118 | an experience entry's lines are clean and hold no heading; their last line is the small spacer, and it is the only one |
| ResumeLines.ExperienceBody | scripts/generate_resume_pdf.mjs:102-119 | the block carries 经历 exactly when there are entries, with one small spacer per entry |
| ResumeLines.EvidenceLinesBody | scripts/generate_resume_pdf.mjs:137-149 | the evidence lines are clean and hold no heading and no small spacer |
| ResumeLines.ProjectLinesBody | scripts/generate_resume_pdf.mjs:125-153 | a project's lines are clean and hold no heading; their last line is the small spacer, and it is the only one |
| ResumeLines.ProjectsBody | scripts/generate_resume_pdf.mjs:121-154 | the block carries 项目 exactly when there are projects, with one small spacer per project |
| ResumeLines.SkillLinesBody | scripts/generate_resume_pdf.mjs:160-169 | a skill group's lines are clean and hold no heading; their last line is the small spacer, and it is the only one |
| ResumeLines.SkillsBody | scripts/generate_resume_pdf.mjs:156-170 | the block carries 技能 exactly when there are groups, with one small spacer per group |
| ResumeLines.EducationMetaClean | scripts/generate_resume_pdf.mjs:182 | the degree/major/range line never starts with "TODO" |
| ResumeLines.EducationLinesBody | scripts/generate_resume_pdf.mjs:177-186 | an education entry's lines are clean and hold no heading; their last line is the small spacer, and it is the only one |
| ResumeLines.EducationBody | scripts/generate_resume_pdf.mjs:172-194 | the block carries 教育 / 证书 exactly when there is education or a certificate, with one small spacer per education entry |
| ResumeLines.SectionBlock | scripts/generate_resume_pdf.mjs:87-88 | a section is a spacer, its heading and a clean body, and its only heading is that one |
| ResumeLines.LinesOfProperties | scripts/generate_resume_pdf.mjs:63-197 | the stream starts with the one h1 title; no text line is empty or starts with "TODO"; the headings are the expected ones in the fixed order; every heading follows a spacer; there is one small spacer per experience, project, skill group and education entry |
| ResumeLines.PushBullets | scripts/generate_resume_pdf.mjs:96-99 | the loop appends one bullet per usable value, in order |
| ResumeLines.PushTextBullets | scripts/generate_resume_pdf.mjs:89 | the loop appends one bullet per link line |
| ResumeLines.PushOpt | scripts/generate_resume_pdf.mjs:109-110 | a line is appended exactly when its text is non-empty |
| ResumeLines.PushPrefixed | scripts/generate_resume_pdf.mjs:128-129 | a prefixed meta line is appended exactly when the value is usable |
| ResumeLines.PushEvidence | scripts/generate_resume_pdf.mjs:146-149 | the evidence title and bullets are appended when there is evidence |
| ResumeLines.PushExperience | scripts/generate_resume_pdf.mjs:106-118 | the lines of one experience are appended |
| ResumeLines.PushProject | scripts/generate_resume_pdf.mjs:125-153 | the lines of one project are appended |
| ResumeLines.PushSkill | scripts/generate_resume_pdf.mjs:160-169 | the lines of one skill group are appended |
| ResumeLines.PushEducation | scripts/generate_resume_pdf.mjs:177-186 | the lines of one education entry are appended |
| ResumeLines.PushCertificates | scripts/generate_resume_pdf.mjs:187-193 | the certificates title and bullets are appended when there are certificates |
| ResumeLines.PushEducationEntries | scripts/generate_resume_pdf.mjs:177-186 | the loop appends the lines of every education entry in order |
| ResumeLines.PushLinks | scripts/generate_resume_pdf.mjs:77-90 | the links section is appended |
| ResumeLines.PushHighlights | scripts/generate_resume_pdf.mjs:92-100 | the highlights section is appended |
| ResumeLines.PushExperienceSection | scripts/generate_resume_pdf.mjs:102-119 | the loop appends the experience section |
| ResumeLines.PushProjectsSection | scripts/generate_resume_pdf.mjs:121-154 | the loop appends the projects section |
| ResumeLines.PushSkillsSection | scripts/generate_resume_pdf.mjs:156-170 | the loop appends the skills section |
| ResumeLines.PushEducationSection | scripts/generate_resume_pdf.mjs:172-194 | the education and certificates section is appended |
| ResumeLines.BuildLines | scripts/generate_resume_pdf.mjs:63-197 | the line array the appends build is the stream `LinesOf` specifies, for which `LinesOfProperties` holds |
| Paginate.SizeOf | scripts/generate_resume_pdf.mjs:205-211 | every style has a positive font size |
| Paginate.LeadingOf | scripts/generate_resume_pdf.mjs:205-211 | every leading is positive and fits between the margins |
| Paginate.MaxCharsFor | scripts/generate_resume_pdf.mjs:213-216 | the column is never narrower than 16 characters |
| Paginate.MaxCharsFormula | scripts/generate_resume_pdf.mjs:213-216 | the table is `max(16, floor(maxWidth / (size · 0.92)))` |
| Paginate.Paginator.constructor | scripts/generate_resume_pdf.mjs:218-220 | the cursor starts at the top of an empty first page with no finished pages |
| Paginate.Paginator.NewPage | scripts/generate_resume_pdf.mjs:222-226 | a non-empty current page is finished; the cursor returns to the top of an empty page |
| Paginate.Paginator.PushLine | scripts/generate_resume_pdf.mjs:228-234 | a new page is started when the line would cross the bottom margin; the line is placed at the margin and `y` drops by its leading |
| Paginate.Paginator.PushWrapped | scripts/generate_resume_pdf.mjs:236-245 | every wrapped piece is placed in order, the first with the prefix and the rest indented by its width |
| Paginate.Paginator.Lower | scripts/generate_resume_pdf.mjs:249 | `y` drops by the gap and nothing else changes |
| Paginate.Paginator.Run | scripts/generate_resume_pdf.mjs:247-279 | the loop over lines applies each kind's rule in order |
| Paginate.Paginate | scripts/generate_resume_pdf.mjs:218-281 | the pages the cursor yields, the last one finished if non-empty |
| Paginate.NewPageFacts | scripts/generate_resume_pdf.mjs:222-226 | a new page keeps every placed line and never finishes an empty page |
| Paginate.PushLineValid | scripts/generate_resume_pdf.mjs:228-234 | a pushed line lies within M + leading ≤ y ≤ PAGE_H − M, below the line before it |
| Paginate.PushPiecesFacts | scripts/generate_resume_pdf.mjs:241-244 | pushing the pieces keeps the page invariant and emits exactly the piece texts |
| Paginate.StepFacts | scripts/generate_resume_pdf.mjs:247-279 | one line keeps the page invariant and emits exactly its wrapped pieces |
| Paginate.RunFacts | scripts/generate_resume_pdf.mjs:247-279 | the whole loop keeps the page invariant and emits the pieces of every line in order |
| Paginate.PagesOfProperties | scripts/generate_resume_pdf.mjs:218-281 | every page is non-empty and every line on it lies within the margins, lower than the one before; the pages hold exactly the emitted pieces in order; there is a page exactly when something was emitted |
| Paginate.SpacersKeepPage | scripts/generate_resume_pdf.mjs:248-255 | spacers lower `y` by 10 or 6 points without starting a page |
| Paginate.TitleMakesPage | scripts/generate_resume_pdf.mjs:256-258 | a stream that opens with a non-blank h1 yields at least one page |
| Paginate.ResumeHasPage | scripts/generate_resume_pdf.mjs:73 | every résumé yields at least one page |
| PdfObjects.Utf8LengthAppend | scripts/generate_resume_pdf.mjs:322 | the UTF-8 length of a concatenation is the sum of the lengths |
| PdfObjects.Utf8LengthAscii | scripts/generate_resume_pdf.mjs:351 | ASCII text has one UTF-8 byte per character |
| PdfObjects.Fixed2Value | scripts/generate_resume_pdf.mjs:317 | `toFixed(2)` of a coordinate is digits, a point and two digits that read back as the value in hundredths |
| PdfObjects.Fixed2Negative | scripts/generate_resume_pdf.mjs:317 | a negative coordinate is written with a minus sign before its magnitude |
| PdfObjects.MediaBoxFormat | scripts/generate_resume_pdf.mjs:325 | the media-box line of every page object is `[0 0 595.28 841.89]`, the page size written with two decimals |
| PdfObjects.Fixed2Constants | scripts/generate_resume_pdf.mjs:325 | the media box reads 595.28 by 841.89 and the margin 42.00 |
| PdfObjects.PageOpsLayout | scripts/generate_resume_pdf.mjs:313-320 | a page has five operators per line, BT … ET, in line order |
| PdfObjects.ShowTextRoundTrip | scripts/generate_resume_pdf.mjs:287-289 | the hex string operand is `<…>` around hex that decodes back to the line's text |
| PdfObjects.StreamAscii | scripts/generate_resume_pdf.mjs:321-322 | a content stream is ASCII |
| PdfObjects.PushLineOps | scripts/generate_resume_pdf.mjs:315-319 | one line appends its five operators |
| PdfObjects.ContentStream | scripts/generate_resume_pdf.mjs:313-321 | the operator loop joins to the page's stream |
| PdfObjects.ContentLength | scripts/generate_resume_pdf.mjs:321-323 | the `/Length` of a content stream is its byte length |
| PdfObjects.Numbering | scripts/generate_resume_pdf.mjs:291-294 | there are 5 + 2·pages objects; the page tree and the catalog are the last two |
| PdfObjects.PageNumbers | scripts/generate_resume_pdf.mjs:309-329 | page i has its content stream at 4 + 2i and its page object at 5 + 2i, which points at that stream and at the page tree |
| PdfObjects.KidsLayout | scripts/generate_resume_pdf.mjs:333-334 | `/Kids` lists `5 + 2i 0 R` for every page, in order |
| PdfObjects.ObjectAscii | scripts/generate_resume_pdf.mjs:299-336 | every object is non-empty ASCII text |
| PdfObjects.FillPage | scripts/generate_resume_pdf.mjs:309-329 | filling page i writes its content stream into slot 4 + 2i and its page object into slot 5 + 2i, and no other slot |
| PdfObjects.FillPages | scripts/generate_resume_pdf.mjs:308-329 | after the page loop every page i has its content stream at 4 + 2i and its page object at 5 + 2i, and the font, page-tree and catalog slots are as before |
| PdfObjects.FillFonts | scripts/generate_resume_pdf.mjs:297-305 | slots 1, 2 and 3 get the Type0 font, the CID font and the font descriptor, and no other slot changes |
| PdfObjects.KidRefs | scripts/generate_resume_pdf.mjs:332-333 | the kids loop yields `5 + 2i 0 R` for each page i, in order |
| PdfObjects.TableSlots | scripts/generate_resume_pdf.mjs:295-336 | a table holding the fonts, every page's two objects, the page tree and the catalog holds at each slot k exactly object k of the layout |
| PdfObjects.BuildObjects | scripts/generate_resume_pdf.mjs:295-336 | every slot 1..total is filled with its object and slot 0 stays empty |
| PdfObjects.CheckObjects | scripts/generate_resume_pdf.mjs:338-341 | the check passes exactly when every slot holds a non-empty object, and otherwise names a missing one |
| PdfObjects.Objects | scripts/generate_resume_pdf.mjs:295-341 | the table is filled and its check never fails |
| PdfFile.HeaderFacts | scripts/generate_resume_pdf.mjs:344-346 | the header has 15 characters, each one byte |
| PdfFile.WriteObjects | scripts/generate_resume_pdf.mjs:344-352 | the loop writes header and objects, records each object's offset, and ends at the offset of the table |
| PdfFile.WriteXref | scripts/generate_resume_pdf.mjs:357-360 | one entry is written per recorded offset |
| PdfFile.Emit | scripts/generate_resume_pdf.mjs:343-365 | the bytes are those of header, objects, table and trailer |
| PdfFile.OffsetsLayout | scripts/generate_resume_pdf.mjs:346-352 | the first object starts at 15 and each next one at the previous offset plus the byte length of `"n 0 obj\n…\nendobj\n"`; the table starts after the last |
| PdfFile.XrefEntryShape | scripts/generate_resume_pdf.mjs:359 | an in-use entry is 20 bytes: ten digits reading the offset, then " 00000 n \n" |
| PdfFile.FreeEntryShape | scripts/generate_resume_pdf.mjs:356 | the free entry is 20 bytes |
| PdfFile.XrefEntriesLayout | scripts/generate_resume_pdf.mjs:357-360 | the entries are 20 bytes each, entry j describing offset j |
| PdfFile.DocumentEnds | scripts/generate_resume_pdf.mjs:344 | the file starts with the header and ends with `startxref`, the table's offset and `%%EOF` |
| PdfFile.XrefAt | scripts/generate_resume_pdf.mjs:354-355 | the table's offset is where "xref\n" starts |
| PdfFile.ObjectsInPlace | scripts/generate_resume_pdf.mjs:347-352 | every recorded offset is where `n 0 obj` of object n starts |
| PdfFile.BinaryNarrow | scripts/generate_resume_pdf.mjs:365 | text with every character below 256 becomes one byte per character, unchanged |
| PdfFile.DocumentNarrow | scripts/generate_resume_pdf.mjs:365 | the whole file is such text |
| PdfFile.DocumentLayoutHolds | scripts/generate_resume_pdf.mjs:343-365 | for ASCII objects and a file below 10^10 bytes: one byte per character, every offset at its object, the table at `startxref`, header first and `%%EOF` last |
| ResumePdf.ObjectListAscii | scripts/generate_resume_pdf.mjs:299-336 | every object of a real table is ASCII |
| ResumePdf.TableShape | scripts/generate_resume_pdf.mjs:291-336 | the table has 5 + 2n objects and ends with the page tree and the catalog that points at it |
| ResumePdf.GeneratePdf | scripts/generate_resume_pdf.mjs:199-366 | paginating, filling and checking the table and writing the file yield the bytes of the document the pages specify |
| ResumePdf.ExportResume | scripts/generate_resume_pdf.mjs:368-372 | exporting a record is `generatePdf(buildLines(record))` |
| ResumePdf.PdfLayout | scripts/generate_resume_pdf.mjs:343-365 | the exported file below 10^10 bytes has the layout of `DocumentLayoutHolds` |
| ResumePdf.ResumeObjects | scripts/generate_resume_pdf.mjs:291-294 | an exported résumé has at least seven objects |
| Strings.TrimEmptyIff | scripts/generate_resume_pdf.mjs:18-19 | the trim is empty exactly when the text is all white space |
| Strings.TrimSlice | scripts/generate_resume_pdf.mjs:17 | the trim is the stretch of the text between its leading and its trailing white space |
| Strings.TrimPadded | scripts/generate_resume_pdf.mjs:17 | trimming a non-empty trimmed core surrounded by white space gives back the core |
| Strings.TrimIdempotent | scripts/generate_resume_pdf.mjs:17 | trimming twice is trimming once |
| Strings.IndexOf | scripts/generate_portfolio_images.mjs:75 | the first index of the character, or −1 exactly when it is absent |
| Strings.LastIndexOf | scripts/generate_portfolio_images.mjs:37-38 | the last index of the character, or −1 exactly when it is absent |
| Strings.JoinSplit | scripts/generate_portfolio_images.mjs:72 | joining the pieces of a split gives the text back |
| Strings.SplitJoin | src/app.js:75 | splitting a join of bar-free parts gives the parts back |
| Strings.NatToStringDigits | scripts/generate_resume_pdf.mjs:359 | `String(n)` is non-empty decimal digits reading back as n |
| Strings.PadDigits | scripts/generate_resume_pdf.mjs:359 | padding to ten digits keeps the value |
| Site.FormatRange | src/app.js:28-33 | "" exactly when both ends are falsy; the end alone without a start; start, " – " and the end or 至今 otherwise |
| Site.FormatRangeAgrees | src/app.js:28-33 | on sanitised inputs the page's range equals the export's range |
| Site.FormatRangeKeepsTodo | src/app.js:28-33 | the page shows a "TODO" start the export suppresses |
| Site.NormalizeTag | src/app.js:142-148 | "" exactly when the tag is missing, blank, or starts with "todo" in any letter case once trimmed; otherwise the trimmed tag |
| Site.TodoCaseCovers | src/app.js:146 | the upper-case test is covered by the case-insensitive one |
| Site.NormalizeTagIdempotent | src/app.js:142-148 | normalising a normalised tag changes nothing |
| Site.NormalizeTagStricter | src/app.js:142-148 | a tag the page keeps is kept by the export's sanitiser with the same text |
| Site.NormalizeTagLowerTodo | src/app.js:146 | "todo" is dropped as a tag though the export keeps it as text |
| Site.Normalized | src/app.js:154 | one normalised tag per tag, in order |
| Site.LessIrreflexive | src/app.js:156 | the tag order is irreflexive |
| Site.LessTransitive | src/app.js:156 | the tag order is transitive |
| Site.LessTotal | src/app.js:156 | any two different tags are ordered |
| Site.LessAsymmetric | src/app.js:156 | the tag order is asymmetric |
| Site.Insert | src/app.js:156 | inserting into a sorted list keeps it sorted and adds exactly the new tag |
| Site.Sort | src/app.js:156 | the sorted list is a permutation of the input and sorted |
| Site.DistinctOfPermutation | src/app.js:156 | sorting a set's elements keeps them distinct |
| Site.StrictlySorted | src/app.js:156 | a sorted list of distinct tags is strictly increasing |
| Site.AddAll | src/app.js:154 | adding tags to the set keeps it duplicate-free and its members are the old ones and the added ones |
| Site.CollectTags | src/app.js:150-157 | the result holds exactly the non-empty normalised tags of all projects, each once, in increasing order |
| Site.Matching | src/app.js:204 | the projects kept are exactly those with the tag among their normalised tags |
| Site.MatchingAppend | src/app.js:204 | the filter keeps the projects' order |
| Site.Filtered | src/app.js:203-205 | no active tag keeps every project; otherwise exactly the matching ones |
| Site.CollectedTagMatches | src/app.js:200-205 | choosing a tag the controls offer never leaves the grid empty |
| Site.HasPdfSafe | src/app.js:92 | a path the page links to is one the export's sanitiser keeps: its result is the trimmed path, which is non-empty |
| Site.HasPdfExamples | src/app.js:92 | "resume.pdf" is linked; "TODO.pdf", blanks, "" and a missing path are not |
| Site.HeroTitle | src/app.js:68 | the title splits at "｜" into the name (or its hint) and the headline (or its hint) |
| Site.HeroSubtitle | src/app.js:71-75 | the hint when no contact part is present; otherwise it starts with the first present part |
| Site.HeroSubtitleSplits | src/app.js:71-75 | the subtitle splits at "｜" into exactly the present parts |
| Site.HeroHighlights | src/app.js:79 | the first five highlights, or all of them when there are fewer |
| Site.ExperienceMeta | src/app.js:124 | "" exactly when every field is falsy; it starts with the organisation when there is one |
| Site.ExperienceMetaSplits | src/app.js:124 | the meta line splits at "｜" into exactly the present fields |
| ImageArgs.WxHAtFirstX | scripts/generate_portfolio_images.mjs:28 | text matches `^(\d+)x(\d+)$` exactly when the digits before and after its first "x" are both non-empty |
| ImageArgs.ParseWxH | scripts/generate_portfolio_images.mjs:26-31 | a falsy value gives no size; otherwise a size exactly when the trimmed text is `WxH`, else the format error naming the flag and the value |
| ImageArgs.ParseWxHOf | scripts/generate_portfolio_images.mjs:26-31 | the size read is the value of the two digit runs |
| ImageArgs.ParseWxHRoundTrip | scripts/generate_portfolio_images.mjs:26-31 | a size written as `WxH` reads back as that size |
| ImageArgs.ParseMaybeRegex | scripts/generate_portfolio_images.mjs:33-44 | nothing exactly when the value is missing or blank; a regex when the trimmed text is `/body/flags` with no "/" in the flags; otherwise the trimmed prefix |
| ImageArgs.ParseMaybeRegexLiteral | scripts/generate_portfolio_images.mjs:37-41 | `/body/flags` gives that body and those flags |
| ImageArgs.ParseMaybeRegexPrefix | scripts/generate_portfolio_images.mjs:43 | a text whose only possible "/" is its first character is a prefix |
| ImageArgs.Parse | scripts/generate_portfolio_images.mjs:46-65 | parsing only adds: earlier positionals stay a prefix, and flags and keys are kept |
| ImageArgs.ParseArgs | scripts/generate_portfolio_images.mjs:46-65 | the loop with its manually advanced index computes the recursive parse |
| ImageArgs.ParseAppend | scripts/generate_portfolio_images.mjs:48-63 | parsing a concatenation is parsing the second part from where the first left off |
| ImageArgs.ParsePositional | scripts/generate_portfolio_images.mjs:50-53 | non-option words are collected in order |
| ImageArgs.ParseSwitch | scripts/generate_portfolio_images.mjs:55-58 | `--skip-existing` and `--dry-run` set their flag and take no value |
| ImageArgs.ParseOption | scripts/generate_portfolio_images.mjs:59-62 | another option takes the next word as its value |
| ImageArgs.ParseMissing | scripts/generate_portfolio_images.mjs:59-60 | an option without a usable next word fails with "缺少参数：--key" |
| ImageArgs.OptionalSize | scripts/generate_portfolio_images.mjs:189-190 | an empty value disables the step; a missing one uses the default; any other is parsed |
| ImageArgs.Settings | scripts/generate_portfolio_images.mjs:187-194 | the settings succeed exactly when the size, the aspect and the resize parse; then the flags and the model are those given |
| ImageArgs.DefaultSettings | scripts/generate_portfolio_images.mjs:187-194 | with no options: gpt-image-1, 1536x1024, 16x10, 1600x1000, no flags, no filter |
| ImageArgs.DefaultSizes | scripts/generate_portfolio_images.mjs:188-190 | the three default sizes parse to their numbers |
| ImageArgs.NoEmptyValues | scripts/generate_portfolio_images.mjs:60 | a successful parse never stores an empty option value |
| ImageArgs.EmptyValueRejected | scripts/generate_portfolio_images.mjs:60 | `--key ""` is rejected as missing |
| ImageArgs.AcceptedAlwaysCrops | scripts/generate_portfolio_images.mjs:189-190 | every accepted command line crops and resizes |
| ImageArgs.EmptyAspectDisablesCrop | scripts/generate_portfolio_images.mjs:189 | with empty values accepted, `--aspect ""` parses and turns cropping off |
| ImageArgs.EmptyAspectSettings | scripts/generate_portfolio_images.mjs:189-190 | an empty aspect value gives settings without an aspect |
| DotEnv.Unquote | scripts/generate_portfolio_images.mjs:79 | one pair of matching quotes is stripped; anything else is kept |
| DotEnv.KeyOfLine | scripts/generate_portfolio_images.mjs:75-77 | the key before the first "=" of a trimmed line is non-empty and has no "=" |
| DotEnv.Entry | scripts/generate_portfolio_images.mjs:73-79 | a line defines nothing exactly when it is blank, a comment, or has no "=" after its first character; a key is non-empty, trimmed and free of "=" |
| DotEnv.EntryOfPlain | scripts/generate_portfolio_images.mjs:73-80 | `KEY=value` reads back as that key and value |
| DotEnv.EntryOfQuoted | scripts/generate_portfolio_images.mjs:79 | a double-quoted value reads back without its quotes |
| DotEnv.Entries | scripts/generate_portfolio_images.mjs:72 | one entry per line, in order |
| DotEnv.CollectKeys | scripts/generate_portfolio_images.mjs:80 | a key is defined exactly when some line defines it |
| DotEnv.CollectLastWins | scripts/generate_portfolio_images.mjs:80 | a key's value is the one of its last line |
| DotEnv.ParseDotEnv | scripts/generate_portfolio_images.mjs:71-82 | the line loop builds the map of the file's entries |
| DotEnv.FirstReadable | scripts/generate_portfolio_images.mjs:67-88 | the entries of the first file that can be read, every earlier one being unreadable; none when no file can be read |
| DotEnv.LoadDotEnv | scripts/generate_portfolio_images.mjs:67-88 | the loop returns exactly `FirstReadable` of the candidate files |
| DotEnv.ApiKey | scripts/generate_portfolio_images.mjs:90-98 | a non-empty process variable wins; otherwise the key is the `OPENAI_API_KEY` entry of the first readable `.env` file, or "" when there is none |
| ImagePipeline.RoundDiv | scripts/generate_portfolio_images.mjs:157 | `Math.round(p / q)` is the integer r with `2qr ≤ 2p + q < 2qr + 2q` |
| ImagePipeline.CutSide | scripts/generate_portfolio_images.mjs:156-162 | the new side is no longer than the old one and is the rounded target side |
| ImagePipeline.Crop | scripts/generate_portfolio_images.mjs:147-166 | no crop without an aspect or when the ratios are equal; a crop shortens exactly one side; a too-wide image keeps its height and its width rounds `h·aw/ah`; a too-tall one keeps its width and its height rounds `w·ah/aw` |
| ImagePipeline.CropOfMatching | scripts/generate_portfolio_images.mjs:164 | an image already in the ratio is left alone |
| ImagePipeline.CropDefault | scripts/generate_portfolio_images.mjs:147-166 | the default 1536x1024 cut to 16:10 becomes 1536x960 |
| ImagePipeline.BackoffSchedule | scripts/generate_portfolio_images.mjs:262 | the waits are 800, 1600 and 3200 ms |
| ImagePipeline.TotalWait | scripts/generate_portfolio_images.mjs:262-264 | n failures wait 800·(2^n − 1) ms in all |
| ImagePipeline.Generate | scripts/generate_portfolio_images.mjs:253-267 | at most three attempts; a wait of 800·2^(k−1) after each failure, the last one included; success exactly when fewer than three attempts failed, with the first successful result; otherwise the third attempt's error |
| ImagePipeline.Filter | scripts/generate_portfolio_images.mjs:200-203 | the items kept are exactly those the test accepts |
| ImagePipeline.FilterAppend | scripts/generate_portfolio_images.mjs:200-203 | the filter keeps the items' order |
| ImagePipeline.Only | scripts/generate_portfolio_images.mjs:199-204 | no pattern keeps every item; a prefix keeps the file names that start with it; a regex keeps those it accepts |
| ImagePipeline.Limit | scripts/generate_portfolio_images.mjs:205 | a missing, non-finite or non-positive limit keeps every item; otherwise the first `floor(limit)` items, or all of them when that many do not exist |
| ImagePipeline.LimitBelowOne | scripts/generate_portfolio_images.mjs:205 | a limit strictly between 0 and 1 selects nothing |
| Particles.Clamp | src/mouse-move-fx.js:44 | within [min, max] when min ≤ max; v itself when already in range; the nearer bound otherwise |
| Particles.DeadByRatio | src/mouse-move-fx.js:185-186 | `life / max ≥ 1` is `life ≥ max` for a positive lifetime |
| Particles.CullPartition | src/mouse-move-fx.js:182-191 | a frame splits the active particles: every one, aged by dt, survives exactly when its life is still below its lifetime, and expires otherwise |
| Particles.SwapRemove | src/mouse-move-fx.js:187-188 | moving the last particle into slot i and popping keeps the slots before i and the other particles |
| Particles.DeadStep | src/mouse-move-fx.js:186-190 | a dead particle leaves the active list and joins the pool; the loop state is kept |
| Particles.LiveStep | src/mouse-move-fx.js:184-186 | a live particle is aged where it stands; the loop state is kept |
| Particles.SpawnCount | src/mouse-move-fx.js:123 | a move asks for between 6 and 44 particles |
| Particles.Born | src/mouse-move-fx.js:89-90 | the new particles start at life 0 with their lifetime clamped to 420..1250 |
| Particles.FrameDelta | src/mouse-move-fx.js:227-228 | the frame delta is always within [8, 34] ms; the first frame gets 8; a delta already in range is kept |
| Particles.Swarm.constructor | src/mouse-move-fx.js:39-41 | the pool starts with 980 fresh particles and nothing active |
| Particles.Swarm.Spawn | src/mouse-move-fx.js:75-100 | with an empty pool nothing changes; otherwise the pool's last particle moves to the end of the active list with life 0 and a clamped lifetime; pool plus active stays 980 |
| Particles.Swarm.Move | src/mouse-move-fx.js:102-144 | a move of at most 0.01 spawns nothing, and a longer one spawns `SpawnCount(dist)` particles or as many as the pool holds; either way the trail continues from the new point |
| Particles.Swarm.Draw | src/mouse-move-fx.js:179-191 | the pool keeps its particles and gains exactly the ones that expired; the active list holds exactly the survivors; pool plus active stays 980 |

## Left out

- The I/O of all three scripts: reading and writing files, `JSON.parse`, `fetch`
  to the image API, `sleep`, `spawnSync("sips")` and the console output. The
  retry loop takes each attempt's outcome as a parameter. `cropToAspect` stops at
  the crop it would ask `sips` for. `resizeTo` and the manifest are not modelled.
- The DOM work of `src/app.js`: `el`, every `render*` body, `makeLink`, `setText`,
  clipboard, toasts and navigation.
- `src/black-hole.mjs` and `src/cursor-fx.js`: WebGL scenes and CSS smoothing
  without discrete state.
- In `src/mouse-move-fx.js`:
  - The physics, drawing and fading.
  - The trail direction (`lastFx`/`lastFy`), resize, and starting and stopping the
    animation.
  - A particle is only its age and its lifetime. Particles are values in value
    lists: each is in exactly one of the two arrays, so the object identity the
    source moves around carries nothing more.
  - Swarm.Draw: it states the new lists as multisets. It does not give the order
    that swapping leaves in the active list or the order of the pool's tail.
- `parsePromptMarkdown`: its regular expression relies on multi-line look-ahead.
  The items reach `Only` as a parameter.
- Regular-expression matching and construction in the `--only` filter:
  - `test` is a parameter standing for `RegExp.prototype.test`.
  - A pattern that `new RegExp` rejects is not modelled.
  - The state the `g` and `y` flags keep between calls is not modelled.
- Limit: `Number(args.limit)` is not modelled. The limit arrives as a real number, or
  `None` for `null`, `NaN` and the infinities.
- Site.Less: `localeCompare(…, "zh-CN")` collation is replaced by code-point order.
  This is a total order, proved irreflexive, transitive, total and asymmetric.
- Site.NormalizeTag: `/^todo/i` folds ASCII letters only. Unicode case folding is
  outside the model.
- JSON values that are not strings are outside the model: numbers, booleans, objects
  where text is expected, and arrays where the source tests `Array.isArray`. Such a
  field is either a string or missing.
- Floating point:
  - Page positions are exact hundredths. An IEEE subtraction that rounds at a margin
    boundary could differ.
  - ImagePipeline.Crop uses exact rational rounding. `Math.round(h * (aw / ah))` in
    doubles can differ by one at a .5 boundary.
  - Particle ages and lifetimes are exact reals.
- The fallback in `generatePdf` for an unknown line kind (`pushWrapped("body", …)`)
  has no counterpart. `buildLines` never emits such a kind, so the line type has
  none.
- ResumePdf.GeneratePdf: it returns bytes without an error case.
  `PdfObjects.Objects` proves the check at lines 338-341 never fails, so the `throw`
  cannot happen.
- ResumePdf.PdfLayout: it requires the file to stay below 10^10 bytes, so that every
  offset fits its ten-digit field. The source has no such guard.
- ImageArgs.Parse: an option named `--_` would overwrite the positional list in the
  source. The model keeps positionals apart from options.
- ImageArgs.Parse: an option `--__proto__` is stored by the model. The source assigns
  it to a plain object, where that assignment stores no entry. Only fixed keys are
  read afterwards, so no other result changes.
- DotEnv.ParseDotEnv: a `.env` key `__proto__` is stored by the model, for the same
  reason as above; only `OPENAI_API_KEY` is read afterwards.
- Heading rule: `buildLines` emits a section heading whenever its source array is
  non-empty, even when every entry in it is suppressed. The model follows the code,
  not the wording that an empty section is omitted.
- Line splitting: the `.env` text is split at "\n" alone, not at `/\r?\n/`. A "\r"
  left at the end of a line is white space, and the trim of every line removes it,
  so the entries are the same.

## Findings

| source | as written | input that shows it | evidently intended | confidence | as-written member | corrected member |
|---|---|---|---|---|---|---|
| scripts/generate_portfolio_images.mjs:60 and :189-190 | `if (!next \|\| …)` rejects an empty option value, so `args.aspect === ""` and `args.resize === ""` can never hold and the "pass empty to disable" of the usage text (lines 17-18) is unreachable | `--aspect ""` fails with "缺少参数：--aspect"; every accepted command line crops and resizes | an empty value is accepted for `--aspect` and `--resize` and turns that step off | not executed | ImageArgs.EmptyValueRejected, ImageArgs.AcceptedAlwaysCrops | ImageArgs.EmptyAspectDisablesCrop |
