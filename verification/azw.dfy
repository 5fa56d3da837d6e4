/** `scripts/azw-converter.js`: the MOBI layout again, with a Kindle
    flavoured HTML document, a Palm header that always names the `TPEZ`
    creator and a 248-byte header with zero DRM fields. */
module Azw {
  import opened JsText
  import opened Markup
  import opened Book
  import opened Bytes
  import opened Palm
  import opened EpubFamily
  import opened Mobi

  // ---------------------------------------------------------------------
  // generateKindleHTML
  // ---------------------------------------------------------------------

  function KindlePrologue(u: ()): JsString
  {
    Lit("<!DOCTYPE html>\n"
        + "<html xmlns=\"http://" + "www.w3.org/1999/" + "xhtml\">\n"
        + "<head>\n"
        + "    <meta charset=" + "\"UTF-8\">\n"
        + "    ")
  }

  /** The document head: unlike the MOBI document, the `<title>` element
      holds the escaped title. `style` is the text of the style sheet. */
  function KindleHead(title: JsString, style: JsString): JsString
  {
    KindlePrologue(()) + TitleElement(EscapeHtml(title)) + StyleBlock(style)
  }

  function KindleAuthorLine(author: JsString): JsString
  {
    Lit("<p class=\"author " + "no-indent\">By ") + EscapeHtml(author) + P_CLOSE
  }

  /** `<p class="` */
  const P_CLASS: JsString := [LT, 0x70, SPACE, 0x63, 0x6C, 0x61, 0x73, 0x73, 0x3D, QUOT]
  /** `">` */
  const CLASS_END: JsString := [QUOT, GT]
  const NO_INDENT: JsString := Lit("no-indent")

  /** `index === 0 ? 'no-indent' : ''` */
  function ClassName(index: nat): JsString
  {
    if index == 0 then NO_INDENT else []
  }

  function ParagraphOpen(index: nat): JsString
  {
    P_CLASS + ClassName(index) + CLASS_END
  }

  /** Piece `index` of `split('\n\n')`: a paragraph of its trimmed, escaped
      text with the class for its position, or nothing when it is blank. */
  function KindleParagraph(index: nat, piece: JsString): JsString
  {
    if Trim(piece) != [] then ParagraphOpen(index) + EscapeHtml(Trim(piece)) + P_CLOSE else []
  }

  /** The `forEach((paragraph, index) => …)` over the pieces. */
  function KindleParagraphList(pieces: seq<JsString>): JsString
  {
    if pieces == [] then []
    else KindleParagraphList(pieces[..|pieces| - 1]) + KindleParagraph(|pieces| - 1, pieces[|pieces| - 1])
  }

  function KindleParagraphs(content: JsString): JsString
  {
    KindleParagraphList(Split(content, BLANK_LINE))
  }

  function KindleChapter(u: (), k: nat, v: Volume, c: Chapter): JsString
  {
    CHAPTER_OPEN + ChapterHeading(c) + KindleParagraphs(c.content) + CHAPTER_CLOSE
  }

  /** The document `generateKindleHTML` builds; `style` is the text of its
      style sheet. */
  function KindleHtmlText(book: Book, style: JsString): JsString
  {
    KindleHead(book.title, style) + TitleHeading(book.title) + KindleAuthorLine(book.author)
    + DescriptionIfAny(book.description)
    + VolumesOut((), book.content, MobiVolumeHeading, KindleChapter, NoOut) + BODY_END
  }

  /** The `htmlContent +=` steps of `generateKindleHTML`. */
  method GenerateKindleHtml(book: Book, style: JsString) returns (html: JsString)
    ensures html == KindleHtmlText(book, style)
  {
    html := KindleHead(book.title, style);
    html := html + TitleHeading(book.title);
    html := html + KindleAuthorLine(book.author);
    if book.description != [] {
      html := html + DescriptionParagraph(book.description);
    } else {
      assert html + [] == html;
    }
    html := Walk((), html, book.content, MobiVolumeHeading, KindleChapter, NoOut);
    html := html + BODY_END;
  }

  // ---------------------------------------------------------------------
  // createAZWHeader
  // ---------------------------------------------------------------------

  const AZW_HEADER_LENGTH := 248

  /** DRM offset and DRM count, both zero: bytes 64..71. */
  function DrmWords(u: ()): (r: seq<Byte>)
    ensures |r| == 8
  {
    Uint32Bytes(0) + Uint32Bytes(0)
  }

  /** Title offset (just past the header), title length and language 9:
      bytes 84..95. */
  function AzwTitleWords(titleLength: int): (r: seq<Byte>)
    ensures |r| == 12
  {
    Uint32Bytes(AZW_HEADER_LENGTH) + Uint32Bytes(titleLength) + Uint32Bytes(9)
  }

  /** The 248 header bytes. */
  function AzwFields(titleLength: int, uniqueId: int): (r: seq<Byte>)
    ensures |r| == AZW_HEADER_LENGTH
  {
    MobiIdent(AZW_HEADER_LENGTH, uniqueId) + Zeros(40) + DrmWords(()) + Zeros(12)
    + AzwTitleWords(titleLength) + Zeros(152)
  }

  /** The header with the title after it, as `createAZWHeader` returns it. */
  function AzwHeader(title: JsString, uniqueId: int): seq<Byte>
  {
    AzwFields(|title|, uniqueId) + Utf8Encode(title)
  }

  /** The words at offsets 64..95, after the identification words. */
  method WriteAzwFields(header: array<Byte>, ghost done: seq<Byte>, titleLength: int)
    requires header.Length == AZW_HEADER_LENGTH && |done| == 24 && WrittenUpTo(header[..], done)
    modifies header
    ensures WrittenUpTo(header[..], done + Zeros(40) + DrmWords(()) + Zeros(12) + AzwTitleWords(titleLength))
  {
    ghost var front := done + Zeros(40);
    PutUint32(header, done, 64, 0);
    ghost var q := Uint32Bytes(0);
    PutUint32(header, front + q, 68, 0);
    AppendAssoc(front, q, Uint32Bytes(0));
    q := q + Uint32Bytes(0);
    ghost var middle := front + q + Zeros(12);
    PutUint32(header, front + q, 84, AZW_HEADER_LENGTH);
    ghost var r := Uint32Bytes(AZW_HEADER_LENGTH);
    PutUint32(header, middle + r, 88, titleLength);
    AppendAssoc(middle, r, Uint32Bytes(titleLength));
    r := r + Uint32Bytes(titleLength);
    PutUint32(header, middle + r, 92, 9);
    AppendAssoc(middle, r, Uint32Bytes(9));
  }

  /** `createAZWHeader(contentLength)`; `draw` is the value `Math.random()`
      returned. */
  method CreateAzwHeader(title: JsString, contentLength: int, draw: real) returns (fullHeader: array<Byte>)
    requires 0.0 <= draw < 1.0
    ensures fullHeader[..] == AzwHeader(title, UniqueId(draw))
  {
    var header := new Byte[AZW_HEADER_LENGTH](i => 0);
    assert WrittenUpTo(header[..], []);
    var uniqueId := (draw * 4294967295.0).Floor;
    WriteIdent(header, AZW_HEADER_LENGTH, uniqueId);
    WriteAzwFields(header, MobiIdent(AZW_HEADER_LENGTH, uniqueId), |title|);
    var titleBytes := Utf8Encode(title);
    fullHeader := Concat2(header[..], titleBytes);
  }

  // ---------------------------------------------------------------------
  // createPalmHeader and generateAZWData
  // ---------------------------------------------------------------------

  /** `createPalmHeader(contentLength, format)`: the creator is `TPEZ`
      whatever the format. */
  method CreatePalmHeader(title: JsString, contentLength: int, nowMillis: int, format: JsString) returns (header: array<Byte>)
    ensures header[..] == PalmHeader(title, nowMillis, TPEZ_CREATOR)
  {
    header := WritePalmHeader(title, nowMillis, TPEZ_CREATOR);
  }

  /** The whole file: Palm header, AZW header with the title, and the
      document as UTF-8; its length is the sum of the three. */
  function AzwFile(book: Book, style: JsString, nowMillis: int, draw: real): (r: seq<Byte>)
    requires 0.0 <= draw < 1.0
    ensures |r| == PALM_HEADER_LENGTH + AZW_HEADER_LENGTH + |Utf8Encode(book.title)| + |Utf8Encode(KindleHtmlText(book, style))|
  {
    PalmHeader(book.title, nowMillis, TPEZ_CREATOR) + AzwHeader(book.title, UniqueId(draw)) + Utf8Encode(KindleHtmlText(book, style))
  }

  /** `generateAZWData()`. */
  method GenerateAzwData(book: Book, style: JsString, nowMillis: int, draw: real) returns (azwFile: array<Byte>)
    requires 0.0 <= draw < 1.0
    ensures azwFile[..] == AzwFile(book, style, nowMillis, draw)
  {
    var htmlContent := GenerateKindleHtml(book, style);
    var htmlBytes := Utf8Encode(htmlContent);
    var azwHeader := CreateAzwHeader(book.title, |htmlBytes|, draw);
    var palmHeader := CreatePalmHeader(book.title, azwHeader.Length + |htmlBytes|, nowMillis, Lit("AZW"));
    azwFile := Concat3(palmHeader[..], azwHeader[..], htmlBytes);
  }

  // ---------------------------------------------------------------------
  // Properties
  // ---------------------------------------------------------------------

  /** The escaped title is in `<title>` and in `<h1>`. */
  lemma KindleTitles(book: Book, style: JsString)
    ensures Contains(KindleHtmlText(book, style), TitleElement(EscapeHtml(book.title)))
    ensures Contains(KindleHtmlText(book, style), TitleHeading(book.title))
  {
    var t := TitleElement(EscapeHtml(book.title));
    var head := KindleHead(book.title, style);
    var h1 := TitleHeading(book.title);
    var author := KindleAuthorLine(book.author);
    var desc := DescriptionIfAny(book.description);
    var vols := VolumesOut((), book.content, MobiVolumeHeading, KindleChapter, NoOut);
    ContainsMiddle(KindlePrologue(()), t, StyleBlock(style));
    ContainsFront(head, t, h1);
    ContainsFront(head + h1, t, author);
    ContainsFront(head + h1 + author, t, desc);
    ContainsFront(head + h1 + author + desc, t, vols);
    ContainsFront(head + h1 + author + desc + vols, t, BODY_END);
    ContainsMiddle(head, h1, []);
    assert head + h1 + [] == head + h1;
    ContainsFront(head + h1, h1, author);
    ContainsFront(head + h1 + author, h1, desc);
    ContainsFront(head + h1 + author + desc, h1, vols);
    ContainsFront(head + h1 + author + desc + vols, h1, BODY_END);
  }

  /** A paragraph opens with `<p class="no-indent">` exactly when it comes
      from the first piece and that piece has text; a later piece with
      text opens with `<p class="">`. */
  lemma ParagraphClass(index: nat, piece: JsString)
    ensures var p := KindleParagraph(index, piece);
      var opening := P_CLASS + NO_INDENT + CLASS_END;
      |opening| <= |p| && p[..|opening|] == opening <==> index == 0 && Trim(piece) != []
    ensures index > 0 && Trim(piece) != [] ==> KindleParagraph(index, piece)[..12] == P_CLASS + CLASS_END
  {
    var p := KindleParagraph(index, piece);
    var opening := P_CLASS + NO_INDENT + CLASS_END;
    if Trim(piece) != [] {
      var rest := EscapeHtml(Trim(piece)) + P_CLOSE;
      AppendAssoc(ParagraphOpen(index), EscapeHtml(Trim(piece)), P_CLOSE);
      if index == 0 {
        assert p[..|opening|] == opening;
      } else {
        assert p[..12] == P_CLASS + CLASS_END;
        assert |opening| <= |p| ==> p[10] != opening[10];
      }
    }
  }

  /** Only the position of the first piece matters: the first piece is
      written with its own class and every later one as an indented
      paragraph. */
  lemma {:induction false} FirstPieceOnly(pieces: seq<JsString>)
    requires pieces != []
    ensures KindleParagraphList(pieces)
         == KindleParagraph(0, pieces[0]) + ConcatMap(p => KindleParagraph(1, p), pieces[1..])
    decreases |pieces|
  {
    var f := p => KindleParagraph(1, p);
    if |pieces| == 1 {
      assert pieces[..0] == [];
      assert pieces[1..] == [];
      EmptyAppend(KindleParagraph(0, pieces[0]));
    } else {
      var init := pieces[..|pieces| - 1];
      var last := pieces[|pieces| - 1];
      FirstPieceOnly(init);
      assert init[0] == pieces[0];
      assert pieces[1..][..|pieces| - 2] == init[1..];
      assert KindleParagraph(|pieces| - 1, last) == f(last);
      AppendAssoc(KindleParagraph(0, pieces[0]), ConcatMap(f, init[1..]), f(last));
    }
  }

  /** A piece gives as many `<` in the AZW document as in the MOBI one. */
  lemma CountLtKindleParagraph(index: nat, piece: JsString)
    ensures Count(LT, KindleParagraph(index, piece)) == Count(LT, MobiParagraph(piece))
  {
    if Trim(piece) != [] {
      var e := EscapeHtml(Trim(piece));
      HtmlEscapeSafe(Trim(piece));
      CountAbsent(LT, e);
      CountLtTags();
      CountLtParagraphOpen(index);
      CountAppend(LT, P_OPEN, e);
      CountAppend(LT, P_OPEN + e, P_CLOSE);
      CountAppend(LT, ParagraphOpen(index), e);
      CountAppend(LT, ParagraphOpen(index) + e, P_CLOSE);
    }
  }

  /** The opening tag holds exactly one `<`, with or without the class. */
  lemma CountLtParagraphOpen(index: nat)
    ensures Count(LT, ParagraphOpen(index)) == 1
  {
    assert P_CLASS == [LT] + P_CLASS[1..];
    CountAppend(LT, [LT], P_CLASS[1..]);
    CountAbsent(LT, P_CLASS[1..]);
    CountAbsent(LT, ClassName(index));
    CountAbsent(LT, CLASS_END);
    CountAppend(LT, P_CLASS, ClassName(index));
    CountAppend(LT, P_CLASS + ClassName(index), CLASS_END);
  }


  /** The AZW chapter keeps the same paragraphs as the MOBI chapter (and
      so as the EPUB chapter file): two `<` per piece with text. */
  lemma {:induction false} KindleParagraphCount(pieces: seq<JsString>)
    ensures Count(LT, KindleParagraphList(pieces)) == Count(LT, ConcatMap(MobiParagraph, pieces))
    decreases |pieces|
  {
    if pieces != [] {
      var init := pieces[..|pieces| - 1];
      var last := pieces[|pieces| - 1];
      KindleParagraphCount(init);
      CountLtKindleParagraph(|pieces| - 1, last);
      CountAppend(LT, KindleParagraphList(init), KindleParagraph(|pieces| - 1, last));
      CountAppend(LT, ConcatMap(MobiParagraph, init), MobiParagraph(last));
    }
  }

  lemma KindleParagraphsAsMobi(content: JsString)
    ensures Count(LT, KindleParagraphs(content)) == Count(LT, MobiParagraphs(content))
    ensures Count(LT, KindleParagraphs(content)) == 2 * NonBlankCount(Split(content, BLANK_LINE))
  {
    KindleParagraphCount(Split(content, BLANK_LINE));
    MobiParagraphsAsEpub(content);
  }

  /** Bytes 64..95 and the title after the 248 header bytes. */
  lemma AzwHeaderParts(title: JsString, uniqueId: int)
    ensures var h := AzwHeader(title, uniqueId);
      && h[64..72] == DrmWords(())
      && h[84..96] == AzwTitleWords(|title|)
      && h[AZW_HEADER_LENGTH..] == Utf8Encode(title)
  {
    var front := MobiIdent(AZW_HEADER_LENGTH, uniqueId) + Zeros(40);
    var p := front + DrmWords(()) + Zeros(12) + AzwTitleWords(|title|);
    SliceParts(front + DrmWords(()) + Zeros(12), AzwTitleWords(|title|), Zeros(152), Utf8Encode(title));
    SliceParts(front, DrmWords(()), Zeros(12), AzwTitleWords(|title|));
    SliceFront(p + Zeros(152), Utf8Encode(title), 64, 72);
    SliceFront(p, Zeros(152), 64, 72);
  }

  lemma DrmWordsZero()
    ensures DrmWords(()) == Zeros(8)
  {
    ZeroWords();
  }

  lemma AzwTitleWordsLayout(titleLength: int)
    ensures var w := AzwTitleWords(titleLength);
      w[0..4] == Uint32Bytes(AZW_HEADER_LENGTH) && w[4..8] == Uint32Bytes(titleLength)
  {
  }

  /** The DRM offset and the DRM count are zero. */
  lemma AzwDrmZero(title: JsString, uniqueId: int)
    ensures AzwHeader(title, uniqueId)[64..72] == Zeros(8)
  {
    AzwHeaderParts(title, uniqueId);
    DrmWordsZero();
  }

  /** The title-offset word holds 248, and 248 is where the title's bytes
      start. */
  lemma AzwTitleOffset(title: JsString, uniqueId: int)
    ensures var h := AzwHeader(title, uniqueId);
      && BigEndianValue(h[84..88]) == AZW_HEADER_LENGTH
      && h[AZW_HEADER_LENGTH..] == Utf8Encode(title)
  {
    var h := AzwHeader(title, uniqueId);
    AzwHeaderParts(title, uniqueId);
    assert h[84..88] == h[84..96][0..4];
    AzwTitleWordsLayout(|title|);
    Uint32Value(AZW_HEADER_LENGTH);
  }

  /** The title-length word holds the title's length in UTF-16 units
      modulo 2^32. */
  lemma AzwTitleLength(title: JsString, uniqueId: int)
    ensures var h := AzwHeader(title, uniqueId);
      BigEndianValue(h[88..92]) == |title| % 0x1_0000_0000
  {
    var h := AzwHeader(title, uniqueId);
    AzwHeaderParts(title, uniqueId);
    assert h[88..92] == h[84..96][4..8];
    AzwTitleWordsLayout(|title|);
    Uint32Value(|title|);
  }
}
