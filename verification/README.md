# json2epub in Dafny

json2epub is a browser application. It reads a JSON book and writes it out
in eight formats:

- EPUB, AZW3, MOBI and AZW (Kindle);
- a zipped HTML site;
- plain text, RTF and PDF.

A JSON book has a title, an author, an optional description and cover, and
volumes that hold chapters.

This project models the deterministic core of that conversion. That core
turns an in-memory book into strings, ordered archive entry lists and byte
arrays. Randomness, the clock and library calls such as `splitTextToSize`
become parameters.

## Modules

- `JsText`: JavaScript strings as sequences of UTF-16 code units. It also
  covers `split`/`join`, `trim`, ASCII `toUpperCase`, `TextEncoder` (UTF-8,
  RFC 3629 section 3) and the decimal rendering of integers.
- `Markup`: the three escapers of `script.js` (`escapeXML`, `escapeHTML`,
  `escapeRTF`) and the local `escapeRTF` of the RTF converter. For
  `escapeXML`, `escapeHTML` and the local `escapeRTF` it defines a decoder
  and proves the round trip. For the `escapeRTF` of `script.js` it proves
  the per-unit form and the shape of the output, with no decoder.
- `Uuid`: `generateUUID`, the layout of section 4.4 of RFC 4122. Its random
  nibbles are a parameter.
- `Book`: the book, its volumes and chapters, and the volume-then-chapter
  traversal every converter shares. The traversal is a specification fold
  plus loop methods proved against it. It also holds download file names
  and progress percentages.
- `Archive`: JSZip entries as `(path, data, store, base64)` and the
  data-URL payload of the cover.
- `Validation`: `validateBookData` over a JSON value, including the
  `TypeError` it throws on `null` volumes and chapters.
- `EpubFamily`, `Epub`, `Azw3`: the EPUB and AZW3 package builders, with
  their OPF, NCX, TOC and chapter documents.
- `Legacy`, `LegacyParagraphs`: the older generators still present in
  `script.js`, including the regular-expression paragraph split.
- `Bytes`, `Palm`, `Mobi`, `Azw`: big-endian `DataView` writes into
  zero-filled buffers, the Palm database header, the MOBI and AZW headers,
  the Kindle HTML, and the final concatenation.
- `Html`, `Txt`, `Rtf`: the text formats.
- `Pdf`: the pagination state machine over `currentY`, with jsPDF as a
  small class recording its draws.

Where the source changes things step by step, the model does too. String
building loops, array writes and the PDF document are methods with loop
invariants. Each is proved equal to a specification function, and the
properties are lemmas about those functions.

## Model

| member | source | states |
|---|---|---|
| Markup.XmlRoundTrip | script.js:890-901 | decoding the five entities in the output of `escapeXML` gives back the input |
| Markup.XmlEscapeSafe | script.js:891-899 | the output has no raw `<`, `>`, `'` or `"`, and every `&` starts one of the five entities |
| Markup.XmlEscapeIdentity | script.js:890-901 | text without the five characters comes back unchanged |
| Markup.HtmlRoundTrip | script.js:620-624 | decoding `&amp;`, `&nbsp;`, `&lt;` and `&gt;` in text-node escaping gives back the input |
| Markup.HtmlEscapeSafe | script.js:620-624 | the escaped text has no raw `<`, `>` or U+00A0, and every `&` starts an entity |
| Markup.EscapeRtfPerUnit | script.js:626-634 | the chain of five `replace` calls equals escaping each code unit on its own |
| Markup.RtfOrderMatters | script.js:627-630 | doubling backslashes first matters: in the other order the backslash added before `{` would be doubled |
| Markup.EscapeRtfOutput | script.js:626-634 | the output is all ASCII and has no raw newline, and every brace follows an odd run of backslashes |
| Markup.EscapeRtfUnicode | script.js:631-633 | any other unit at or above U+0080 becomes `\u`, its decimal code and `?`; an ASCII unit is unchanged |
| Markup.EscapeRtfLocalRoundTrip | scripts/rtf-converter.js:56-63 | for a string, decoding the escapes gives back the input; anything that is not a string gives `''` |
| Markup.EscapeRtfLocalOutput | scripts/rtf-converter.js:59-62 | the output has no raw newline, and every brace follows an odd run of backslashes |
| Markup.EscapeRtfLocalIdentity | scripts/rtf-converter.js:56-63 | text without `\`, braces or newlines, non-ASCII included, is unchanged |
| Uuid.FillSpec | script.js:883-887 | each `x`/`y` hole of the template takes the next draw, in order, and every other character is kept |
| Uuid.TemplateHoles | script.js:883 | the template has 31 holes, so 31 draws are consumed |
| Uuid.UuidLayout | script.js:882-888 | 36 characters: `-` at 8, 13, 18 and 23, `4` at 14, one of `89ab` at 19, lower-case hex elsewhere |
| JsText.JoinSplit | scripts/epub-converter.js:241-243 | joining the pieces of `split(sep)` with `sep` gives back the string |
| JsText.TrimSpec | scripts/epub-converter.js:241-243 | `trim` returns a slice of the input with no whitespace at either end, and is empty exactly for blank input |
| JsText.UpperAsciiSpec | scripts/txt-converter.js:13 | no lower-case ASCII letter is left; a unit changes exactly when it is one; the upper-case letters of the result are those of the input plus the raised ones; upper-casing twice is upper-casing once |
| JsText.Utf8Length | scripts/mobi-converter.js:87 | the UTF-8 encoding is at least as long as the code units, and exactly as long for ASCII text |
| JsText.Utf8Ascii | scripts/mobi-converter.js:188 | the UTF-8 encoding of ASCII text is the text itself |
| JsText.DecimalRoundTrip | script.js:632 | the decimal digits of a number read back as that number |
| JsText.IntDecimalReadBack | scripts/txt-converter.js:34 | a non-negative integer renders as digits that read back as it; a negative one as `-` and digits that read back as its magnitude |
| JsText.IntDecimalInjective | scripts/txt-converter.js:34 | different integers render differently |
| Book.WalkVolume | scripts/txt-converter.js:27-39 | the chapter loop of one volume appends the volume heading, each chapter's text in order, and the volume footer |
| Book.Walk | scripts/txt-converter.js:26-40 | the nested volume and chapter loops append exactly the traversal fold |
| Book.WalkTwice | script.js:659-667 | one pass over the chapters builds two strings, each equal to its own fold |
| Book.Traversal | scripts/html-converter.js:24 | the number of (volume, chapter) pairs visited is the `reduce` chapter total |
| Book.WalkIsIndexed | scripts/html-converter.js:28-38 | chapter-only output of the nested loops is the output for each traversal position in turn |
| Book.VolumesPrefix | scripts/txt-converter.js:26-40 | everything written up to chapter `j` of volume `i` is a prefix of the whole output |
| Book.WrappedPrefix | scripts/txt-converter.js:26-40 | the same holds inside a document that puts a fixed front before the traversal and a fixed back after it |
| Book.FileStemSpec | scripts/epub-converter.js:63 | the stem has the title's length and holds only `[a-z0-9_]`; a unit becomes `_` exactly when it is not an ASCII letter or digit; the stem is idempotent |
| Book.DownloadName | scripts/epub-converter.js:63 | the download name is the stem followed by the extension; the AZW3, MOBI, AZW, text, RTF and PDF converters name their files the same way with their own extension |
| Book.ProgressMonotone | scripts/epub-converter.js:37-39 | `base + done / total * span` rises strictly with `done` and stays within `[base, base + span]` |
| Archive.DataUrlPayload | scripts/epub-converter.js:46-49 | the cover's data is the text after the first comma of the data URL, and `undefined` when there is no comma |
| Validation.ValidateBookData | script.js:170-208 | the loops return the verdict of the `Validate` specification: valid, the ordered defect messages, or a thrown `TypeError` |
| Validation.ValidateTop | script.js:173-182 | the three top-level checks push the title, author and content defects |
| Validation.ValidateVolumes | script.js:185-203 | the volume loop throws exactly when some volume throws; otherwise it appends every volume's defects |
| Validation.ValidateVolume | script.js:186-202 | one volume throws exactly when it is `null` or has a `null` chapter; otherwise its defects are appended |
| Validation.ValidateChapters | script.js:193-200 | the chapter loop throws exactly at a `null` chapter; otherwise it appends each chapter's title and content defects |
| Validation.ThrowsIff | script.js:185-200 | validation throws exactly when the data, a volume or a chapter is `null` |
| Validation.DefectsExact | script.js:170-207 | a defect is reported exactly when its check fails; chapter checks only run for a volume whose `chapters` is an array |
| Validation.DefectsOrdered | script.js:186-202 | defects come in top-level, then volume-then-chapter order, with 1-based numbers |
| Validation.ValidIff | script.js:170-207 | validation succeeds exactly when the book is well formed |
| Validation.ValidIsWellFormed | script.js:205-207 | a book that passes validation is well formed |
| Validation.WellFormedNoDefects | script.js:170-207 | a well-formed book yields no defect |
| Validation.WellFormedNoThrow | script.js:185-203 | a well-formed book throws no `TypeError` |
| EpubFamily.ChapterPathIsOebpsHref | scripts/epub-converter.js:33-35 | a chapter's archive path is `OEBPS/` followed by its manifest href |
| EpubFamily.ParagraphOrEmptySpec | scripts/epub-converter.js:240-244 | a piece gives `''` exactly when it is blank; otherwise `<p>`, text that decodes back to the trimmed piece and holds no raw markup, and `</p>` |
| EpubFamily.FormatChapterContentParagraphs | scripts/epub-converter.js:240-244 | the number of `<`-tags is twice the number of non-blank `\n\n` pieces: one paragraph each |
| EpubFamily.GenerateTocNcx | scripts/epub-converter.js:146-183 | the navPoint loop builds the NCX document |
| EpubFamily.NavMapSpec | scripts/epub-converter.js:162-176 | one navPoint per chapter in traversal order: playOrder and id number `k+1`, the chapter's label, `src` the chapter href |
| EpubFamily.NcxIsNavMap | scripts/epub-converter.js:146-183 | the NCX text is its head, the rendered navMap and its foot |
| EpubFamily.GenerateTocXhtml | scripts/epub-converter.js:185-221 | the volume and chapter loops build the nav TOC document |
| EpubFamily.TocLinksInOrder | scripts/epub-converter.js:198-212 | the nav document holds a list item linking every chapter's file under its escaped title, after the items of all earlier volumes and chapters |
| EpubFamily.GenerateOpfBody | scripts/epub-converter.js:103-141 | the manifest and spine loops build the OPF body |
| EpubFamily.ChapterIdsSpec | scripts/epub-converter.js:116-137 | one id `vol{vi}_ch{ci}` per chapter, in traversal order |
| EpubFamily.OpfBodyIds | scripts/epub-converter.js:116-141 | manifest chapter items and spine itemrefs carry the same id sequence, and the spine holds nothing else |
| EpubFamily.ManifestIds | scripts/epub-converter.js:116-124 | the manifest chapter items are the id sequence |
| EpubFamily.SpineIds | scripts/epub-converter.js:130-137 | the spine itemrefs are the same id sequence |
| EpubFamily.ChapterEntriesSpec | scripts/epub-converter.js:31-41 | one chapter entry per chapter in traversal order, holding that chapter's XHTML at its path |
| EpubFamily.ChapterEntriesPlain | scripts/epub-converter.js:35 | chapter entries are neither stored nor base64 |
| EpubFamily.CoverEntries | scripts/epub-converter.js:46-49 | the cover entry exists exactly when the book has a cover and its image was read; its data is the data-URL payload, base64 |
| EpubFamily.AddPackageEntries | scripts/epub-converter.js:16-52 | the `zip.file` calls add the package entries in order |
| EpubFamily.PackageLayout | scripts/epub-converter.js:16-52 | container, OPF, NCX, TOC, then the chapters in order, the optional cover, then the style sheet |
| EpubFamily.PackageOptions | scripts/epub-converter.js:16-52 | no package entry is stored, and exactly the cover is base64 |
| EpubFamily.PackagePathsUpper | scripts/epub-converter.js:16-52 | every package path starts with an upper-case letter, so none is `mimetype` |
| Epub.GenerateContentOpf | scripts/epub-converter.js:81-144 | the OPF is the metadata, cover meta, manifest and spine |
| Epub.EpubMetadata | scripts/epub-converter.js:85-96 | the metadata holds the escaped title, the identifier, and `dcterms:modified` and `dc:date` with the same `now` |
| Epub.CoverTogether | scripts/epub-converter.js:98-114 | the cover meta, the cover item and the cover entry each exist exactly when the cover is present and read |
| Epub.Convert | scripts/epub-converter.js:6-52 | `convert` adds `mimetype` and then the package entries built from the generated documents |
| Epub.EpubLayout | scripts/epub-converter.js:13-52 | `mimetype` first, then the package entries; the count is 6 plus the chapters plus one for a cover |
| Epub.EpubOptions | scripts/epub-converter.js:13-52 | only `mimetype` is stored, and only the cover is base64 |
| Epub.EpubProgress | scripts/epub-converter.js:37-39 | progress after chapter `k` is in (30, 80] and rises strictly with `k` |
| Azw3.GenerateAzw3ContentOpf | scripts/azw3-converter.js:91-155 | the OPF is the AZW3 metadata, manifest and spine |
| Azw3.Azw3DateThenComment | scripts/azw3-converter.js:107-109 | `dc:date` is followed by a line of eight spaces and the comment that opens the AZW3 metadata |
| Azw3.Azw3Metadata | scripts/azw3-converter.js:94-113 | the head holds the escaped title and its `calibre:title_sort`, the identifier, and `now` in `dcterms:modified`, `dc:date` and `calibre:timestamp` |
| Azw3.Azw3CoverMeta | scripts/azw3-converter.js:110-125 | the cover `<meta>` is always emitted; the cover item appears exactly when the cover is present and read |
| Azw3.GenerateAzw3Data | scripts/azw3-converter.js:29-80 | the entries are the package entries, with no `mimetype` |
| Azw3.Azw3Entries | scripts/azw3-converter.js:33-73 | the EPUB entries are exactly `mimetype` followed by the AZW3 entries, and no AZW3 entry is stored or named `mimetype` |
| Azw3.Azw3Progress | scripts/azw3-converter.js:60-62 | progress after chapter `k` is in (50, 80] and rises strictly with `k` |
| Legacy.LegacyItems | script.js:659-667 | one pass appends every chapter's manifest item and spine itemref, after the cover item |
| Legacy.LegacyGenerateContentOpf | script.js:645-695 | the legacy OPF with a `urn:uuid:` identifier |
| Legacy.LegacyOpfIds | script.js:650-689 | manifest items and spine itemrefs carry the same chapter ids in traversal order, after the fixed `toc` entries |
| Legacy.LegacyCoverItemIff | script.js:654-656 | the cover item appears exactly when cover image data exists |
| Legacy.LegacyGenerateTocNcx | script.js:697-742 | the navPoint loop with its `playOrder` counter builds the legacy NCX |
| Legacy.LegacyNcxIsNavMap | script.js:697-742 | the NCX is its head, the rendered navMap and its foot |
| Legacy.LegacyPlayOrders | script.js:702-740 | the TOC navPoint is first with playOrder 1, and the navMap's playOrders run 1 to n+1 |
| Legacy.LegacyChapterOrders | script.js:702-716 | chapter navPoints get playOrder 2 to n+1 in traversal order |
| Legacy.LegacyChapterPoints | script.js:704-715 | chapter `k` has id `navPoint-(k+2)`, its `volume - chapter` label and its `content/` href |
| LegacyParagraphs.RegexSplitRoundTrip | script.js:803 | the pieces of `split(/\n\s*\n/)`, joined with the separators, give back the text, and each separator is a blank line |
| LegacyParagraphs.RegexSplitSpec | script.js:803 | no piece contains a blank line, and pieces with the matched separators rebuild the input |
| LegacyParagraphs.NonBlankPiecesMembers | script.js:803 | `filter(p => p.trim())` keeps exactly the non-blank pieces |
| LegacyParagraphs.LegacyFormatParagraphs | script.js:801-805 | the number of tags is twice the number of non-blank regex pieces |
| LegacyParagraphs.KeptParagraphsCount | script.js:804 | each kept piece becomes exactly one paragraph |
| Bytes.BigEndianRoundTrip | scripts/mobi-converter.js:148-185 | a value below 256^n read back from its n big-endian bytes is itself |
| Bytes.Uint16Value | scripts/mobi-converter.js:113-138 | `setUint16` stores the value modulo 2^16 |
| Bytes.Uint32Value | scripts/mobi-converter.js:148-185 | `setUint32` stores the value modulo 2^32 |
| Bytes.SetBytes | scripts/mobi-converter.js:190-191 | `Uint8Array.set` replaces exactly the bytes at the offset |
| Bytes.SetUint8 | scripts/mobi-converter.js:109 | `setUint8` stores the low byte and changes nothing else |
| Bytes.SetUint16 | scripts/mobi-converter.js:113-114 | `setUint16` writes two big-endian bytes and changes nothing else |
| Bytes.SetUint32 | scripts/mobi-converter.js:118-123 | `setUint32` writes four big-endian bytes and changes nothing else |
| Bytes.Put | scripts/mobi-converter.js:144-185 | a write into the zero-filled tail leaves the written prefix, zeros up to the offset, then the bytes |
| Bytes.Concat3 | scripts/mobi-converter.js:94-97 | the new array is the three parts in order |
| Bytes.Concat2 | scripts/mobi-converter.js:189-191 | the new array is the two parts in order |
| Palm.WriteName | scripts/mobi-converter.js:107-110 | the name loop writes the name field |
| Palm.WriteDates | scripts/mobi-converter.js:113-123 | attributes, version and the four date words follow the name |
| Palm.WriteIds | scripts/mobi-converter.js:126-138 | type, creator, seeds and the record count complete the 78 bytes |
| Palm.WritePalmHeader | scripts/mobi-converter.js:102-141 | the 78-byte header is the name, dates and ids fields |
| Palm.NameFieldCut | scripts/mobi-converter.js:107 | only the first 31 title units reach the name field |
| Palm.NameFieldAscii | scripts/mobi-converter.js:107-110 | for a short ASCII title the name field is its bytes, zero-padded to 32 |
| Palm.PalmDatesLayout | scripts/mobi-converter.js:113-123 | version 1, and creation and modification both the Palm-epoch seconds, then zeros |
| Palm.PalmIdsLayout | scripts/mobi-converter.js:126-138 | `BOOK`, the creator, zero seeds and 2 records |
| Palm.PalmLayout | scripts/mobi-converter.js:102-141 | the whole header, byte range by byte range |
| Palm.BookCode | scripts/mobi-converter.js:126 | `0x424F4F4B` is the bytes of `BOOK` |
| Palm.MobiCode | scripts/mobi-converter.js:130 | `0x4D4F4249` is the bytes of `MOBI` |
| Palm.TpezCode | scripts/mobi-converter.js:128 | `0x5450455A` is the bytes of `TPEZ` |
| Mobi.GenerateMobiHtml | scripts/mobi-converter.js:33-82 | the HTML assembly loops build the MOBI HTML text |
| Mobi.MobiTitles | scripts/mobi-converter.js:37-52 | the HTML holds the raw title in `<title>` and the escaped title in `<h1>`; it is the head followed by a body built from the escaped title only, so `<title>` is the one place the raw title is written |
| Mobi.MobiParagraphsAsEpub | scripts/mobi-converter.js:71-76 | a chapter has one paragraph per non-blank piece, as many as the EPUB format produces |
| Mobi.UniqueIdRange | scripts/mobi-converter.js:160 | `Math.floor(random * 0xFFFFFFFF)` is a 32-bit value that `setUint32` stores unchanged |
| Mobi.CreateMobiHeader | scripts/mobi-converter.js:143-194 | the header bytes for the title and id, whatever `contentLength` is |
| Mobi.CreatePalmHeader | scripts/mobi-converter.js:102-141 | the creator is `TPEZ` exactly when the format is `AZW`, otherwise `MOBI` |
| Mobi.MobiHeaderParts | scripts/mobi-converter.js:166-191 | bytes 68 to 99 are the record words, and the title's UTF-8 bytes start at 232 |
| Mobi.MobiRecordsLayout | scripts/mobi-converter.js:178-179 | the title offset word is 232 and the length word is the given length |
| Mobi.MobiTitleOffset | scripts/mobi-converter.js:178-191 | the offset word at 84 reads 232, where the title bytes begin |
| Mobi.MobiTitleLength | scripts/mobi-converter.js:179 | the word at 88 is `title.length` in code units, modulo 2^32 |
| Mobi.TitleLengthCountsBytes | scripts/mobi-converter.js:179-191 | the length word equals the appended byte count exactly when the title is ASCII |
| Mobi.MobiFile | scripts/mobi-converter.js:94-97 | the file's length is the sum of the Palm header, the MOBI header and the HTML bytes |
| Mobi.GenerateMobiData | scripts/mobi-converter.js:29-100 | the file is the Palm header with creator `MOBI`, then the MOBI header, then the HTML bytes |
| Azw.GenerateKindleHtml | scripts/azw-converter.js:53-142 | the HTML assembly loops build the Kindle HTML text |
| Azw.KindleTitles | scripts/azw-converter.js:59-111 | both `<title>` and `<h1>` hold the escaped title |
| Azw.ParagraphClass | scripts/azw-converter.js:128-133 | a paragraph opens with `class="no-indent"` exactly when it is non-blank piece 0; other non-blank pieces get `class=""` |
| Azw.FirstPieceOnly | scripts/azw-converter.js:129-131 | only piece 0 is rendered with index 0 |
| Azw.KindleParagraphsAsMobi | scripts/azw-converter.js:128-133 | there are as many paragraphs as in MOBI: one per non-blank piece |
| Azw.CreateAzwHeader | scripts/azw-converter.js:181-224 | the 248-byte header and the title bytes, whatever `contentLength` is |
| Azw.CreatePalmHeader | scripts/azw-converter.js:144-179 | the creator is always `TPEZ`, whatever the format argument |
| Azw.AzwHeaderParts | scripts/azw-converter.js:181-224 | the DRM words at 64 to 71, the title words at 84 to 95, and the title bytes at 248 |
| Azw.AzwDrmZero | scripts/azw-converter.js:181-224 | the DRM offset and count are zero |
| Azw.AzwTitleOffset | scripts/azw-converter.js:181-224 | the offset word at 84 reads 248, where the title bytes begin |
| Azw.AzwTitleLength | scripts/azw-converter.js:181-224 | the word at 88 is `title.length` in code units, modulo 2^32 |
| Azw.AzwFile | scripts/azw-converter.js:45-48 | the file's length is the sum of the three parts |
| Azw.GenerateAzwData | scripts/azw-converter.js:29-51 | the file is the Palm header with creator `TPEZ`, then the AZW header, then the HTML bytes |
| Html.FindOwnPosition | scripts/html-converter.js:263 | with distinct indices, `findIndex` finds every element at its own position |
| Html.NavigationOfDistinct | scripts/html-converter.js:263-302 | Previous leads to chapter `j-1` when `j > 0`; Next leads to `j+1`, else to the first chapter of the next volume when it has one, else nowhere |
| Html.NextPrevMutual | scripts/html-converter.js:263-297 | within a volume a Next link leads to a chapter whose Previous link leads back |
| Html.ChapterLinks | scripts/html-converter.js:263-275 | the lookups give the Previous and Next links of the navigation specification |
| Html.GenerateIndex | scripts/html-converter.js:212-260 | the index loops build the index page: header, optional description, one volume block of chapter links each |
| Html.IndexLinksInOrder | scripts/html-converter.js:238-251 | the index page holds a link to every chapter's page under its escaped title, after the links and volume headings of all earlier chapters |
| Html.GenerateChapter | scripts/html-converter.js:262-345 | the page is the head, navigation, headings, paragraphs, then the same navigation again |
| Html.AppendNav | scripts/html-converter.js:287-302 | the navigation holds the index link and the Previous and Next links that exist |
| Html.AppendParagraphs | scripts/html-converter.js:311-317 | the paragraph loop appends every non-blank piece, trimmed and escaped, in order |
| Html.ChapterFile | scripts/html-converter.js:30-32 | one entry `vol{vi}_ch{ci}.html` holding the chapter page |
| Html.AddVolumePages | scripts/html-converter.js:29-37 | the chapter loop of one volume adds its chapter files in order |
| Html.AddChapterPages | scripts/html-converter.js:28-38 | the nested loops add every chapter file in traversal order |
| Html.Convert | scripts/html-converter.js:6-38 | the entries are `styles.css`, `index.html`, then the chapter files |
| Html.HtmlEntriesFront | scripts/html-converter.js:13-38 | `styles.css` first, `index.html` second, the chapter pages after, and as many as chapters plus two |
| Html.PageEntriesLayout | scripts/html-converter.js:28-38 | chapter file `k` belongs to traversal position `k` and holds that chapter's page |
| Html.ZipName | scripts/html-converter.js:49 | the download name is the title stem and `_html.zip` |
| Html.HtmlProgress | scripts/html-converter.js:35-36 | progress after chapter `k` is in (30, 90] and rises strictly with `k` |
| Html.HtmlParagraphsAsEpub | scripts/html-converter.js:311-317 | a page has one paragraph per non-blank piece, as many as EPUB |
| Txt.RepeatCount | scripts/txt-converter.js:20 | `repeat(n)` holds the unit exactly `n` times |
| Txt.VolumeHeading | scripts/txt-converter.js:27-28 | the upper-cased name, a newline, then as many dashes as the original name has units |
| Txt.Convert | scripts/txt-converter.js:6-40 | the `content +=` steps build the text specification |
| Txt.TitleFirst | scripts/txt-converter.js:13 | the text opens with the upper-cased title and a newline |
| Txt.DescriptionIfAny | scripts/txt-converter.js:16-20 | the description block follows the title page exactly when the description is non-empty |
| Txt.RuleShape | scripts/txt-converter.js:20 | the rule is exactly 61 `=` and a blank line |
| Txt.ContentVerbatim | scripts/txt-converter.js:34-35 | each chapter's content appears unescaped, after its heading line and after everything written for earlier chapters |
| Txt.TxtProgress | scripts/txt-converter.js:31-32 | progress before chapter `k` is in [10, 90) and rises strictly with `k` |
| Rtf.Convert | scripts/rtf-converter.js:6-38 | the `rtf +=` steps build the RTF specification |
| Rtf.PrologDepth | scripts/rtf-converter.js:10 | the fixed prolog leaves exactly one group open |
| Rtf.EscapeDepth | scripts/rtf-converter.js:56-63 | escaped text opens and closes no group |
| Rtf.RtfBalanced | scripts/rtf-converter.js:10-38 | not counting escaped braces, the groups of the whole document are balanced |
| Rtf.RtfFrame | scripts/rtf-converter.js:10-38 | the document starts with the prolog, title group and author group, and ends with `}` |
| Rtf.ChapterInOrder | scripts/rtf-converter.js:24-32 | each chapter's title group and content group follow the output of all earlier chapters |
| Pdf.Document.constructor | scripts/pdf-converter.js:12 | a new document has one page, no text and the default font size |
| Pdf.Document.AddPage | scripts/pdf-converter.js:40 | adds a page and changes nothing else |
| Pdf.Document.SetFontSize | scripts/pdf-converter.js:21 | sets the font size and changes nothing else |
| Pdf.Document.Text | scripts/pdf-converter.js:22 | records one draw on the current page at the given y, with the current size |
| Pdf.Place | scripts/pdf-converter.js:63-69 | break to a new page when `currentY` exceeds the limit, then one draw; pages grow by exactly the breaks taken |
| Pdf.LinesLayout | scripts/pdf-converter.js:63-70 | one draw per line; pages grow by exactly the breaks taken |
| Pdf.ChapterLayout | scripts/pdf-converter.js:50-72 | the chapter title and its lines are appended; pages grow by exactly the breaks taken |
| Pdf.VolumeLayout | scripts/pdf-converter.js:38-74 | each volume adds one page plus its breaks |
| Pdf.VolumesLayout | scripts/pdf-converter.js:38-75 | the volumes add one page each plus their breaks |
| Pdf.PdfLayout | scripts/pdf-converter.js:20-75 | the title page draws come first; the page count is 1 plus the volumes plus the breaks |
| Pdf.DrawLines | scripts/pdf-converter.js:63-70 | the line loop leaves the document and `currentY` as the layout says |
| Pdf.DrawChapter | scripts/pdf-converter.js:49-72 | one chapter leaves the document and `currentY` as the layout says |
| Pdf.DrawVolume | scripts/pdf-converter.js:38-74 | one volume leaves the document and `currentY` as the layout says |
| Pdf.Convert | scripts/pdf-converter.js:6-75 | the document's draws and page count are the layout's |
| Pdf.PdfTexts | scripts/pdf-converter.js:20-75 | the texts drawn are the title page, then per volume its name and per chapter its title and each wrapped line, once each and in order |
| Pdf.PdfBounds | scripts/pdf-converter.js:50-70 | with page height at least 80, every line lies in [20, height-20] and every chapter title in [20, height-60] |
| Pdf.PdfFlows | scripts/pdf-converter.js:20-75 | each draw is on a later page than the one before, or lower on the same page; the first is on page 1 and the last on the final page |
| Pdf.PdfProgress | scripts/pdf-converter.js:46 | progress before chapter `k` is in [20, 90) and rises strictly with `k` |

## Left out

- The user interface is not modelled. This covers event listeners, drag and drop, the preview, the modal dialogs, `showError` and `resetApp`.
- The `updateProgress`, `setConvertingState` and `completeConversion` DOM writes and the `setTimeout` are not modelled. Progress values are stated as a function of the chapters processed.
- Progress values are exact rationals, not IEEE doubles.
- File and network input are not modelled: `processFile`, `readFileContent` and `loadCoverImage` (`FileReader`, `fetch`, `Blob`). The cover image is an optional input holding its data URL and extension.
- `formatFileSize` is not modelled, because it is floating-point display code.
- `JSON.parse` is not modelled. Validation starts from a parsed JSON value.
- The step from a validated JSON value to the `Book` datatype is not modelled. Indices are integers or missing; a string or fractional `volume_index` is not modelled.
- JSZip's DEFLATE, the ZIP byte format and `generateAsync` are not modelled. An archive is the ordered list of its `zip.file` calls, with the `STORE` and `base64` options.
- Epub.EpubLayout, Azw3.Azw3Entries, Html.HtmlEntriesFront: the entry list is the sequence of `zip.file` calls. It equals the archive's contents only when the paths are distinct. JSZip replaces an entry written twice under one path. Validation does not check `volume_index` or `chapter_index`, so two chapters with the same pair of indices get the same path (`vol${v}_ch${c}`). That collapse is not modelled.
- The `Blob`, object URL and anchor download code is not modelled, and neither is `pdf.save`. The download names are modelled as functions.
- jsPDF rendering is not modelled: fonts, glyphs and the centring x coordinate. `splitTextToSize` is the `wrap` parameter, and the page height is an integer parameter.
- `Math.random` is a parameter: nibble draws for `generateUUID` and a real in [0, 1) for the unique id.
- `Date.now` is a millisecond parameter, and the ISO date string is a string parameter.
- The style sheets are parameters: `generateCSS`, `generateAZW3CSS`, `generateHTMLCSS` and the inline MOBI and Kindle styles. The container XML is a constant.
- `script.js` also holds `generateHTMLIndex`, `generateHTMLChapter`, `generateTOCXHTML`, `generateChapterXHTML` and `generateCSS`. These legacy generators are not part of this model. Only the legacy OPF, NCX and paragraph generators are.
- JsText.UpperAsciiSpec: upper-cases ASCII letters only. JavaScript's full Unicode case mapping, which can change the length, is not modelled.
- JsText.IntToDecimal: renders every integer as plain decimal digits. JavaScript writes a number of magnitude 10^21 or more in exponent form, and `JSON.parse` has already rounded integers above 2^53 to the nearest double; `Book` indices are unbounded integers, so neither effect is modelled.
- `trim` and the regular-expression `\s` use a fixed set: the ECMAScript WhiteSpace and LineTerminator code points.
- `escapeHTML` uses the text-node rule for escaping a string from section 13.3 of the HTML Standard. That rule escapes `&`, U+00A0, `<` and `>`. It stands in for the DOM serialiser.
- `TextEncoder` is modelled as UTF-8 of the UTF-16 units, with a lone surrogate encoded as U+FFFD.
- Html.NavigationOfDistinct: the navigation is stated for volumes and chapters with distinct indices. With repeated indices, the model follows the source's first-match `findIndex`, and no property is stated for it.
- Pdf.PdfProgress: is stated for a chapter still to be processed (`k < n`), which is the only time the source reports it.
- Pdf.VolumeLayout: its contract states the page count. The volume name drawn at y 50 and the cursor reset to 80 appear in its body, in `PdfTexts` and in `PdfFlows`.
