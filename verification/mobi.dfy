/** `scripts/mobi-converter.js`: one HTML document for the whole book,
    encoded as UTF-8 and put behind a Palm database header and a 232-byte
    MOBI header. */
module Mobi {
  import opened JsText
  import opened Markup
  import opened Book
  import opened Bytes
  import opened Palm
  import opened EpubFamily

  // ---------------------------------------------------------------------
  // The HTML document
  // ---------------------------------------------------------------------

  /** `<title>${title}</title>` */
  function TitleElement(title: JsString): JsString
  {
    Lit("<title>") + title + Lit("</title>")
  }

  function MobiPrologue(u: ()): JsString
  {
    Lit("<!DOCTYPE html>\n"
        + "<html>\n"
        + "<head>\n"
        + "    <meta charset=" + "\"UTF-8\">\n"
        + "    ")
  }

  /** What follows the `<title>` element in the head: the `<style>`
      element, whose fixed text is `style`, then the end of the head and
      the start of the body. */
  function StyleBlock(style: JsString): JsString
  {
    Lit("\n    ") + style + Lit("\n</head>\n<body>")
  }

  /** The document head, with the title written into `<title>` as it is,
      without escaping. */
  function MobiHead(title: JsString, style: JsString): JsString
  {
    MobiPrologue(()) + TitleElement(title) + StyleBlock(style)
  }

  /** `<h1>${escaped}</h1>` */
  function Heading1(escaped: JsString): JsString
  {
    Lit("<h1>") + escaped + Lit("</h1>")
  }

  function TitleHeading(title: JsString): JsString
  {
    Heading1(EscapeHtml(title))
  }

  function AuthorLine(author: JsString): JsString
  {
    Lit("<p class=\"author\">By ") + EscapeHtml(author) + P_CLOSE
  }

  /** The description paragraph, written only when the description is
      truthy, that is not empty. */
  function DescriptionParagraph(description: JsString): JsString
  {
    Lit("<p class=\"description\">") + EscapeHtml(description) + P_CLOSE
  }

  function DescriptionIfAny(description: JsString): JsString
  {
    if description != [] then DescriptionParagraph(description) else []
  }

  /** `<h2>Volume ${volume.volume_index}: ${escapeHTML(volume.volume_name)}</h2>` */
  function MobiVolumeHeading(u: (), v: Volume): JsString
  {
    Lit("<h2>Volume ") + IndexText(v.index) + Lit(": ") + EscapeHtml(v.name) + Lit("</h2>")
  }

  /** One piece of `chapter_content.split('\n\n')`: a paragraph of its
      trimmed, escaped text, or nothing when it is blank. */
  function MobiParagraph(piece: JsString): JsString
  {
    if Trim(piece) != [] then P_OPEN + EscapeHtml(Trim(piece)) + P_CLOSE else []
  }

  function MobiParagraphs(content: JsString): JsString
  {
    ConcatMap(MobiParagraph, Split(content, BLANK_LINE))
  }

  const CHAPTER_OPEN: JsString := Lit("<div class=\"chapter\">")
  const CHAPTER_CLOSE: JsString := Lit("</div>")

  /** The chapter heading of `generateMOBIData`. */
  function ChapterHeading(c: Chapter): JsString
  {
    Lit("<h3>Chapter ") + IndexText(c.index) + Lit(": ") + EscapeHtml(c.title) + Lit("</h3>")
  }

  /** One chapter: a `chapter` division holding the heading and the
      paragraphs. */
  function MobiChapter(u: (), k: nat, v: Volume, c: Chapter): JsString
  {
    CHAPTER_OPEN + ChapterHeading(c) + MobiParagraphs(c.content) + CHAPTER_CLOSE
  }

  const BODY_END: JsString := Lit("</body></html>")

  /** Everything after the head, given the title already escaped: the
      body depends on the title only through `escapeHTML(title)`. */
  function MobiBody(escapedTitle: JsString, author: JsString, description: JsString, vols: seq<Volume>): JsString
  {
    Heading1(escapedTitle) + AuthorLine(author) + DescriptionIfAny(description)
    + VolumesOut((), vols, MobiVolumeHeading, MobiChapter, NoOut) + BODY_END
  }

  /** The document `generateMOBIData` builds; `style` is the text of its
      style sheet. */
  function MobiHtmlText(book: Book, style: JsString): JsString
  {
    MobiHead(book.title, style) + MobiBody(EscapeHtml(book.title), book.author, book.description, book.content)
  }

  /** The `htmlContent +=` steps of `generateMOBIData`. */
  method GenerateMobiHtml(book: Book, style: JsString) returns (html: JsString)
    ensures html == MobiHtmlText(book, style)
  {
    html := MobiHead(book.title, style);
    html := html + TitleHeading(book.title);
    html := html + AuthorLine(book.author);
    if book.description != [] {
      html := html + DescriptionParagraph(book.description);
    } else {
      assert html + [] == html;
    }
    html := Walk((), html, book.content, MobiVolumeHeading, MobiChapter, NoOut);
    html := html + BODY_END;
    var head, h1, author := MobiHead(book.title, style), TitleHeading(book.title), AuthorLine(book.author);
    var desc := DescriptionIfAny(book.description);
    var vols := VolumesOut((), book.content, MobiVolumeHeading, MobiChapter, NoOut);
    AppendAssoc(head, h1, author);
    AppendAssoc(head, h1 + author, desc);
    AppendAssoc(head, h1 + author + desc, vols);
    AppendAssoc(head, h1 + author + desc + vols, BODY_END);
  }

  // ---------------------------------------------------------------------
  // createMOBIHeader
  // ---------------------------------------------------------------------

  const MOBI_HEADER_LENGTH := 232
  /** The identifier `MOBI` at offset 0. */
  const MOBI_MAGIC := 0x4D4F4249
  /** The Windows code page number of UTF-8. */
  const UTF8_CODE_PAGE := 65001

  /** `Math.floor(Math.random() * 0xFFFFFFFF)` for a draw of
      `Math.random()`, which lies in [0, 1). */
  function UniqueId(draw: real): int
    requires 0.0 <= draw < 1.0
  {
    (draw * 4294967295.0).Floor
  }

  /** The unique id is a 32-bit value, never 0xFFFFFFFF. */
  lemma UniqueIdRange(draw: real)
    requires 0.0 <= draw < 1.0
    ensures 0 <= UniqueId(draw) < 0xFFFF_FFFF
    ensures ToUint32(UniqueId(draw)) == UniqueId(draw)
  {
  }

  /** Bytes 0..23, shared with the AZW header: identifier, header length,
      type 2 (a Mobipocket book), text encoding, unique id, version 6. */
  function MobiIdent(headerLength: int, uniqueId: int): (r: seq<Byte>)
    ensures |r| == 24
  {
    Uint32Bytes(MOBI_MAGIC) + Uint32Bytes(headerLength) + Uint32Bytes(2)
    + Uint32Bytes(UTF8_CODE_PAGE) + Uint32Bytes(uniqueId) + Uint32Bytes(6)
  }

  /** Bytes 68..99: first non-book record 1, no image and Huffman
      records, the title offset (just past the header) and the title
      length, language 9 and minimum version 6. */
  function MobiRecords(titleLength: int): (r: seq<Byte>)
    ensures |r| == 32
  {
    Uint32Bytes(1) + Uint32Bytes(0) + Uint32Bytes(0) + Uint32Bytes(0)
    + Uint32Bytes(MOBI_HEADER_LENGTH) + Uint32Bytes(titleLength) + Uint32Bytes(9) + Uint32Bytes(6)
  }

  /** The 232 header bytes. */
  function MobiFields(titleLength: int, uniqueId: int): (r: seq<Byte>)
    ensures |r| == MOBI_HEADER_LENGTH
  {
    MobiIdent(MOBI_HEADER_LENGTH, uniqueId) + Zeros(44) + MobiRecords(titleLength) + Zeros(132)
  }

  /** The header with the title after it, as `createMOBIHeader` returns it;
      the length field holds the title's length in UTF-16 code units. */
  function MobiHeader(title: JsString, uniqueId: int): (r: seq<Byte>)
    ensures |r| == MOBI_HEADER_LENGTH + |Utf8Encode(title)|
  {
    MobiFields(|title|, uniqueId) + Utf8Encode(title)
  }

  /** The six words at offsets 0..23, into a buffer nothing was written to. */
  method WriteIdent(header: array<Byte>, headerLength: int, uniqueId: int)
    requires header.Length >= 24 && WrittenUpTo(header[..], [])
    modifies header
    ensures WrittenUpTo(header[..], MobiIdent(headerLength, uniqueId))
  {
    PutUint32(header, [], 0, MOBI_MAGIC);
    EmptyAppend(Uint32Bytes(MOBI_MAGIC));
    ghost var q := Uint32Bytes(MOBI_MAGIC);
    PutUint32(header, q, 4, headerLength);
    q := q + Uint32Bytes(headerLength);
    PutUint32(header, q, 8, 2);
    q := q + Uint32Bytes(2);
    PutUint32(header, q, 12, UTF8_CODE_PAGE);
    q := q + Uint32Bytes(UTF8_CODE_PAGE);
    PutUint32(header, q, 16, uniqueId);
    q := q + Uint32Bytes(uniqueId);
    PutUint32(header, q, 20, 6);
  }

  /** The eight words at offsets 68..99. */
  method WriteRecords(header: array<Byte>, ghost done: seq<Byte>, titleLength: int)
    requires header.Length == MOBI_HEADER_LENGTH && |done| == 24 && WrittenUpTo(header[..], done)
    modifies header
    ensures WrittenUpTo(header[..], done + Zeros(44) + MobiRecords(titleLength))
  {
    ghost var front := done + Zeros(44);
    PutUint32(header, done, 68, 1);
    ghost var q := Uint32Bytes(1);
    PutUint32(header, front + q, 72, 0);
    AppendAssoc(front, q, Uint32Bytes(0));
    q := q + Uint32Bytes(0);
    PutUint32(header, front + q, 76, 0);
    AppendAssoc(front, q, Uint32Bytes(0));
    q := q + Uint32Bytes(0);
    PutUint32(header, front + q, 80, 0);
    AppendAssoc(front, q, Uint32Bytes(0));
    q := q + Uint32Bytes(0);
    PutUint32(header, front + q, 84, MOBI_HEADER_LENGTH);
    AppendAssoc(front, q, Uint32Bytes(MOBI_HEADER_LENGTH));
    q := q + Uint32Bytes(MOBI_HEADER_LENGTH);
    PutUint32(header, front + q, 88, titleLength);
    AppendAssoc(front, q, Uint32Bytes(titleLength));
    q := q + Uint32Bytes(titleLength);
    PutUint32(header, front + q, 92, 9);
    AppendAssoc(front, q, Uint32Bytes(9));
    q := q + Uint32Bytes(9);
    PutUint32(header, front + q, 96, 6);
    AppendAssoc(front, q, Uint32Bytes(6));
  }

  /** `createMOBIHeader(contentLength)`; `draw` is the value
      `Math.random()` returned. */
  method CreateMobiHeader(title: JsString, contentLength: int, draw: real) returns (fullHeader: array<Byte>)
    requires 0.0 <= draw < 1.0
    ensures fullHeader[..] == MobiHeader(title, UniqueId(draw))
  {
    var header := new Byte[MOBI_HEADER_LENGTH](i => 0);
    assert WrittenUpTo(header[..], []);
    var uniqueId := (draw * 4294967295.0).Floor;
    WriteIdent(header, MOBI_HEADER_LENGTH, uniqueId);
    WriteRecords(header, MobiIdent(MOBI_HEADER_LENGTH, uniqueId), |title|);
    var titleBytes := Utf8Encode(title);
    fullHeader := Concat2(header[..], titleBytes);
  }

  // ---------------------------------------------------------------------
  // generateMOBIData
  // ---------------------------------------------------------------------

  /** `createPalmHeader(contentLength, format)`: the creator is `TPEZ` for
      the format `AZW` and `MOBI` otherwise. */
  method CreatePalmHeader(title: JsString, contentLength: int, nowMillis: int, format: JsString) returns (header: array<Byte>)
    ensures header[..] == PalmHeader(title, nowMillis, if format == Lit("AZW") then TPEZ_CREATOR else MOBI_CREATOR)
  {
    var creator := if format == Lit("AZW") then TPEZ_CREATOR else MOBI_CREATOR;
    header := WritePalmHeader(title, nowMillis, creator);
  }

  /** The whole file: Palm header, MOBI header with the title, and the
      document as UTF-8; its length is the sum of the three. `nowMillis`
      is `Date.now()`. */
  function MobiFile(book: Book, style: JsString, nowMillis: int, draw: real): (r: seq<Byte>)
    requires 0.0 <= draw < 1.0
    ensures |r| == PALM_HEADER_LENGTH + MOBI_HEADER_LENGTH + |Utf8Encode(book.title)| + |Utf8Encode(MobiHtmlText(book, style))|
  {
    PalmHeader(book.title, nowMillis, MOBI_CREATOR) + MobiHeader(book.title, UniqueId(draw)) + Utf8Encode(MobiHtmlText(book, style))
  }

  /** `generateMOBIData()`; `createPalmHeader` is called with its default
      format `MOBI`. */
  method GenerateMobiData(book: Book, style: JsString, nowMillis: int, draw: real) returns (mobiFile: array<Byte>)
    requires 0.0 <= draw < 1.0
    ensures mobiFile[..] == MobiFile(book, style, nowMillis, draw)
  {
    var htmlContent := GenerateMobiHtml(book, style);
    var htmlBytes := Utf8Encode(htmlContent);
    var mobiHeader := CreateMobiHeader(book.title, |htmlBytes|, draw);
    var palmHeader := CreatePalmHeader(book.title, mobiHeader.Length + |htmlBytes|, nowMillis, Lit("MOBI"));
    assert Lit("MOBI") != Lit("AZW");
    mobiFile := Concat3(palmHeader[..], mobiHeader[..], htmlBytes);
  }

  // ---------------------------------------------------------------------
  // Properties
  // ---------------------------------------------------------------------

  /** The title appears unescaped inside `<title>` and escaped inside
      `<h1>`; the `<title>` element is the only place the raw title is
      written, since the rest of the document is built from the escaped
      title. */
  lemma MobiTitles(book: Book, style: JsString)
    ensures Contains(MobiHtmlText(book, style), TitleElement(book.title))
    ensures Contains(MobiHtmlText(book, style), TitleHeading(book.title))
    ensures MobiHtmlText(book, style)
         == MobiPrologue(()) + TitleElement(book.title) + StyleBlock(style)
            + MobiBody(EscapeHtml(book.title), book.author, book.description, book.content)
  {
    MobiTitlesContained(book, style);
  }

  lemma MobiTitlesContained(book: Book, style: JsString)
    ensures Contains(MobiHtmlText(book, style), TitleElement(book.title))
    ensures Contains(MobiHtmlText(book, style), TitleHeading(book.title))
  {
    var head := MobiHead(book.title, style);
    var h1 := TitleHeading(book.title);
    var author := AuthorLine(book.author);
    var desc := DescriptionIfAny(book.description);
    var vols := VolumesOut((), book.content, MobiVolumeHeading, MobiChapter, NoOut);
    var body := MobiBody(EscapeHtml(book.title), book.author, book.description, book.content);
    ContainsMiddle(MobiPrologue(()), TitleElement(book.title), StyleBlock(style));
    ContainsFront(head, TitleElement(book.title), body);
    ContainsMiddle([], h1, []);
    assert [] + h1 + [] == h1;
    ContainsFront(h1, h1, author);
    ContainsFront(h1 + author, h1, desc);
    ContainsFront(h1 + author + desc, h1, vols);
    ContainsFront(h1 + author + desc + vols, h1, BODY_END);
    ContainsBack(head, body, h1);
  }

  /** Each piece of the chapter text with something other than white
      space in it gives one paragraph, and the escaped text adds no `<`:
      two `<` per such piece. */
  lemma {:induction false} MobiParagraphCount(pieces: seq<JsString>)
    ensures Count(LT, ConcatMap(MobiParagraph, pieces)) == 2 * NonBlankCount(pieces)
    decreases |pieces|
  {
    if pieces == [] {
      CountAbsent(LT, []);
    } else {
      assert pieces == [pieces[0]] + pieces[1..];
      ConcatMapCons(MobiParagraph, pieces[0], pieces[1..]);
      MobiParagraphCount(pieces[1..]);
      CountAppend(LT, MobiParagraph(pieces[0]), ConcatMap(MobiParagraph, pieces[1..]));
      var t := Trim(pieces[0]);
      if t != [] {
        HtmlEscapeSafe(t);
        CountAbsent(LT, EscapeHtml(t));
        CountAppend(LT, P_OPEN, EscapeHtml(t));
        CountAppend(LT, P_OPEN + EscapeHtml(t), P_CLOSE);
        CountLtTags();
      } else {
        CountAbsent(LT, []);
      }
    }
  }

  /** A chapter keeps exactly the paragraphs the EPUB chapter file keeps:
      the same pieces of `split('\n\n')`, counted by their `<`. */
  lemma MobiParagraphsAsEpub(content: JsString)
    ensures Count(LT, MobiParagraphs(content)) == 2 * NonBlankCount(Split(content, BLANK_LINE))
    ensures Count(LT, MobiParagraphs(content)) == Count(LT, FormatChapterContent(content))
  {
    MobiParagraphCount(Split(content, BLANK_LINE));
    FormatChapterContentParagraphs(content);
  }

  /** The title-offset word holds 232, where the title bytes start, and
      the title-length word holds the length in UTF-16 units. */
  lemma MobiRecordsLayout(titleLength: int)
    ensures var r := MobiRecords(titleLength);
      r[16..20] == Uint32Bytes(MOBI_HEADER_LENGTH) && r[20..24] == Uint32Bytes(titleLength)
  {
  }

  /** Bytes 68..99 of the header are the record words, and the title's
      bytes follow the 232 header bytes. */
  lemma MobiHeaderParts(title: JsString, uniqueId: int)
    ensures var h := MobiHeader(title, uniqueId);
      h[68..100] == MobiRecords(|title|) && h[MOBI_HEADER_LENGTH..] == Utf8Encode(title)
  {
    SliceParts(MobiIdent(MOBI_HEADER_LENGTH, uniqueId) + Zeros(44), MobiRecords(|title|), Zeros(132), Utf8Encode(title));
  }

  /** The title-offset word of the header holds 232, and 232 is where
      the title's bytes start. */
  lemma MobiTitleOffset(title: JsString, uniqueId: int)
    ensures var h := MobiHeader(title, uniqueId);
      && BigEndianValue(h[84..88]) == MOBI_HEADER_LENGTH
      && h[MOBI_HEADER_LENGTH..] == Utf8Encode(title)
  {
    var h := MobiHeader(title, uniqueId);
    MobiHeaderParts(title, uniqueId);
    assert h[84..88] == h[68..100][16..20];
    MobiRecordsLayout(|title|);
    Uint32Value(MOBI_HEADER_LENGTH);
  }

  /** The title-length word holds the title's length in UTF-16 units
      modulo 2^32. */
  lemma MobiTitleLength(title: JsString, uniqueId: int)
    ensures var h := MobiHeader(title, uniqueId);
      BigEndianValue(h[88..92]) == |title| % 0x1_0000_0000
  {
    var h := MobiHeader(title, uniqueId);
    MobiHeaderParts(title, uniqueId);
    assert h[88..92] == h[68..100][20..24];
    MobiRecordsLayout(|title|);
    Uint32Value(|title|);
  }

  /** The title bytes after the header are UTF-8 while the length word
      counts UTF-16 units: for a title shorter than 2^32 units the word
      gives the number of bytes after the header exactly when the title is
      ASCII. */
  lemma TitleLengthCountsBytes(title: JsString, uniqueId: int)
    requires |title| < 0x1_0000_0000
    ensures var h := MobiHeader(title, uniqueId);
      BigEndianValue(h[88..92]) == |h| - MOBI_HEADER_LENGTH <==> AllAscii(title)
  {
    MobiTitleLength(title, uniqueId);
    Utf8Length(title);
    WordCountsBytes(|title|, |Utf8Encode(title)|, AllAscii(title));
  }

  lemma WordCountsBytes(units: nat, bytes: nat, ascii: bool)
    requires units < 0x1_0000_0000 && units <= bytes && (bytes == units <==> ascii)
    ensures units % 0x1_0000_0000 == bytes <==> ascii
  {
  }
}
