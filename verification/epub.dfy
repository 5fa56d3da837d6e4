/** `scripts/epub-converter.js`: the EPUB 3 package, as the ordered list of
    archive entries `convert` adds, and its `generateContentOPF`. */
module Epub {
  import opened JsText
  import opened Wrappers
  import opened Markup
  import opened Uuid
  import opened Book
  import opened Archive
  import opened EpubFamily

  // ---------------------------------------------------------------------
  // generateContentOPF
  // ---------------------------------------------------------------------

  /** The package document up to `<dc:date>`, line by line. */
  function OpfHeadLines(book: Book, uuid: JsString, now: JsString): seq<JsString>
  {
    [Lit("<?xml version=\"1.0\" " + "encoding=\"UTF-8\"?>\n"
        + "<package xmlns=" + "\"http://" + "www.idpf.org/2007/" + "opf\" version=\"3.0\" " + "unique-identifier=" + "\"BookId\">\n"
        + "    <metadata " + "xmlns:dc=\"http://" + "purl.org/dc/" + "elements/1.1/\">"),
     TitleLine(book.title),
     Lit("\n        <dc:creator>") + EscapeXml(book.author) + Lit("</dc:creator>"),
     LanguageLine(()),
     IdentifierLine(uuid),
     ModifiedLine(now),
     DescriptionLine(book.description),
     Lit("\n"
         + "        " + "<dc:publisher>" + "JSON2EPUB Converter" + "</dc:publisher>"),
     RightsLine(()),
     DateLine(now)]
  }

  function OpfHead(book: Book, uuid: JsString, now: JsString): JsString
  {
    Concat(OpfHeadLines(book, uuid, now))
  }

  function CoverMetaText(u: ()): JsString
  {
    Lit("\n"
        + "        <meta name=" + "\"cover\" content=" + "\"cover-image\"/>")
  }

  /** The cover `<meta>`: written under the same condition as the cover item. */
  function CoverMeta(book: Book, image: Option<CoverImage>): JsString
  {
    if HasCover(book, image) then CoverMetaText(()) else []
  }

  function OpfText(book: Book, image: Option<CoverImage>, uuid: JsString, now: JsString): JsString
  {
    OpfHead(book, uuid, now) + CoverMeta(book, image) + OpfBody(book, image)
  }

  /** `generateContentOPF()`, with its UUID and its clock reading passed in. */
  method GenerateContentOpf(book: Book, image: Option<CoverImage>, uuid: JsString, now: JsString) returns (opf: JsString)
    ensures opf == OpfText(book, image, uuid, now)
  {
    opf := OpfHead(book, uuid, now) + CoverMeta(book, image);
    var body := GenerateOpfBody(book, image);
    opf := opf + body;
  }

  /** The metadata holds the escaped title, the identifier and the clock
      reading, the latter twice: as `dcterms:modified` and as `dc:date`. */
  lemma EpubMetadata(book: Book, uuid: JsString, now: JsString)
    ensures var head := OpfHead(book, uuid, now);
      && Contains(head, TitleLine(book.title))
      && Contains(head, IdentifierLine(uuid))
      && Contains(head, ModifiedLine(now))
      && Contains(head, DateLine(now))
  {
    var lines := OpfHeadLines(book, uuid, now);
    HeadLine(lines, 1);
    HeadLine(lines, 4);
    HeadLine(lines, 5);
    HeadLine(lines, 9);
  }

  /** The cover `<meta>`, the `cover-image` manifest item and the cover
      archive entry are all present or all absent, and they are present
      exactly when the book names a cover and its image was loaded. */
  lemma CoverTogether(book: Book, image: Option<CoverImage>)
    ensures CoverMeta(book, image) != [] <==> HasCover(book, image)
    ensures CoverItem(book, image) != [] <==> HasCover(book, image)
    ensures |CoverEntries(book, image)| == 1 <==> HasCover(book, image)
  {
    if HasCover(book, image) {
      assert |CoverMetaText(())| > 0;
      assert |CoverItem(book, image)| > 0;
    }
  }

  // ---------------------------------------------------------------------
  // convert: the entries of the archive
  // ---------------------------------------------------------------------

  /** `mimetype`, stored uncompressed. */
  function MimetypeEntry(u: ()): Entry
  {
    Entry(Lit("mimetype"), Text(Lit("application/epub+zip")), true, false)
  }

  /** The entries `convert` adds, in order, given the package document,
      the NCX and the nav document it generated and the stylesheet:
      `mimetype` first, then the same entries as the AZW3 package. */
  function EpubEntries(book: Book, image: Option<CoverImage>, opf: JsString, ncx: JsString, toc: JsString, css: JsString): seq<Entry>
  {
    [MimetypeEntry(())] + PackageEntries(book, image, opf, ncx, toc, css)
  }

  /** `convert()`: the archive entries. The OPF and
      the NCX each call `generateUUID` for themselves, so each gets its own
      31 draws; `now` is the ISO time, `css` the stylesheet text. */
  method Convert(book: Book, image: Option<CoverImage>, opfDraws: UuidDraws, ncxDraws: UuidDraws, now: JsString, css: JsString)
    returns (entries: seq<Entry>)
    ensures entries == EpubEntries(book, image, OpfText(book, image, GenerateUuid(opfDraws), now),
                                   NcxText(book, GenerateUuid(ncxDraws)), TocText(book), css)
  {
    entries := [MimetypeEntry(())];
    var opfUuid := GenerateUuid(opfDraws);
    var opf := GenerateContentOpf(book, image, opfUuid, now);
    var ncxUuid := GenerateUuid(ncxDraws);
    var ncx := GenerateTocNcx(book, ncxUuid);
    var toc := GenerateTocXhtml(book);
    var package := AddPackageEntries(book, image, opf, ncx, toc, css);
    entries := entries + package;
  }

  /** `mimetype` comes first, and the package entries follow it unchanged. */
  lemma EpubLayout(book: Book, image: Option<CoverImage>, opf: JsString, ncx: JsString, toc: JsString, css: JsString)
    ensures var es := EpubEntries(book, image, opf, ncx, toc, css);
      && |es| == 6 + ChapterTotal(book.content) + (if HasCover(book, image) then 1 else 0)
      && es[0] == MimetypeEntry(())
      && es[1..] == PackageEntries(book, image, opf, ncx, toc, css)
  {
    PackageLayout(book, image, opf, ncx, toc, css);
    var es := EpubEntries(book, image, opf, ncx, toc, css);
    assert es[1..] == PackageEntries(book, image, opf, ncx, toc, css);
  }

  /** Only `mimetype` is stored uncompressed, as section 3.3 of the EPUB
      Open Container Format 3.0.1 requires; only the cover is base64. */
  lemma EpubOptions(book: Book, image: Option<CoverImage>, opf: JsString, ncx: JsString, toc: JsString, css: JsString)
    ensures var es := EpubEntries(book, image, opf, ncx, toc, css);
      var n := ChapterTotal(book.content);
      && (forall i :: 0 <= i < |es| ==> (es[i].store <==> i == 0))
      && (forall i :: 0 <= i < |es| ==> (es[i].base64 <==> HasCover(book, image) && i == 5 + n))
  {
    var es := EpubEntries(book, image, opf, ncx, toc, css);
    var package := PackageEntries(book, image, opf, ncx, toc, css);
    PackageOptions(book, image, opf, ncx, toc, css);
    forall i | 1 <= i < |es| ensures es[i] == package[i - 1] { }
  }

  /** `30 + (processedChapters / totalChapters) * 50` after chapter `k`:
      strictly increasing, above 30 and at most 80. */
  lemma EpubProgress(k: nat, n: nat)
    requires 1 <= k <= n
    ensures 30.0 < ChapterProgress(30.0, 50.0, k, n) <= 80.0
    ensures k < n ==> ChapterProgress(30.0, 50.0, k, n) < ChapterProgress(30.0, 50.0, k + 1, n)
  {
    ProgressMonotone(30.0, 50.0, 0, k, n);
    if k < n {
      ProgressMonotone(30.0, 50.0, k, k + 1, n);
    }
  }
}
