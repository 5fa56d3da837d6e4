/** `scripts/azw3-converter.js`: the same package as EPUB without the
    `mimetype` entry, with calibre metadata in its `generateAZW3ContentOPF`. */
module Azw3 {
  import opened JsText
  import opened Wrappers
  import opened Markup
  import opened Uuid
  import opened Book
  import opened Archive
  import opened EpubFamily
  import Epub

  // ---------------------------------------------------------------------
  // generateAZW3ContentOPF
  // ---------------------------------------------------------------------

  /** The `<meta name="cover">` line, written whether or not there is a cover. */
  function CoverMetaLine(u: ()): JsString
  {
    Lit("\n"
        + "        <meta name=" + "\"cover\" content=" + "\"cover-image\"/>")
  }

  function TimestampMeta(now: JsString): JsString
  {
    Lit("\n"
        + "        <meta name=" + "\"calibre:timestamp\" " + "content=\"") + now + Lit("\"/>")
  }

  function TitleSortMeta(title: JsString): JsString
  {
    Lit("\n"
        + "        <meta name=" + "\"calibre:title_sort\"" + " content=\"") + EscapeXml(title) + Lit("\"/>")
  }

  /** The package document up to the calibre metadata, line by line. */
  function Azw3HeadLines(book: Book, uuid: JsString, now: JsString): seq<JsString>
  {
    [Lit("<?xml version=\"1.0\" " + "encoding=\"UTF-8\"?>\n"
        + "<package xmlns=" + "\"http://" + "www.idpf.org/2007/" + "opf\" version=\"3.0\" " + "unique-identifier=" + "\"BookId\" prefix=" + "\"calibre: https://" + "calibre-ebook.com\">\n"
        + "    <metadata " + "xmlns:dc=\"http://" + "purl.org/dc/" + "elements/1.1/\" " + "xmlns:opf=\"http://" + "www.idpf.org/2007/" + "opf\">"),
     TitleLine(book.title),
     Lit("\n"
         + "        <dc:creator " + "opf:role=\"aut\">") + EscapeXml(book.author) + Lit("</dc:creator>"),
     LanguageLine(()),
     IdentifierLine(uuid),
     ModifiedLine(now),
     DescriptionLine(book.description),
     Lit("\n"
         + "        " + "<dc:publisher>" + "JSON2eBook Converter" + "</dc:publisher>"),
     RightsLine(()),
     DateLine(now),
     Lit("\n"
         + "        \n"
         + "        <!-- AZW3 " + "specific metadata " + "-->"),
     CoverMetaLine(()),
     Lit("\n"
         + "        <meta name=" + "\"calibre:series_inde" + "x\" content=\"1\"/>"),
     TimestampMeta(now),
     TitleSortMeta(book.title),
     Lit("\n"
         + "        <meta name=" + "\"calibre:author_link" + "_map\" content=\"{}\"/>")]
  }

  function Azw3Head(book: Book, uuid: JsString, now: JsString): JsString
  {
    Concat(Azw3HeadLines(book, uuid, now))
  }

  function Azw3OpfText(book: Book, image: Option<CoverImage>, uuid: JsString, now: JsString): JsString
  {
    Azw3Head(book, uuid, now) + OpfBody(book, image)
  }

  /** `generateAZW3ContentOPF()`, with its UUID and its clock reading passed in. */
  method GenerateAzw3ContentOpf(book: Book, image: Option<CoverImage>, uuid: JsString, now: JsString) returns (opf: JsString)
    ensures opf == Azw3OpfText(book, image, uuid, now)
  {
    opf := Azw3Head(book, uuid, now);
    var body := GenerateOpfBody(book, image);
    opf := opf + body;
  }

  /** In the metadata, the escaped title is both `dc:title` and
      `calibre:title_sort`, and the one clock reading is
      `dcterms:modified`, `dc:date` and `calibre:timestamp`. */
  lemma Azw3Metadata(book: Book, uuid: JsString, now: JsString)
    ensures var head := Azw3Head(book, uuid, now);
      && Contains(head, TitleLine(book.title)) && Contains(head, TitleSortMeta(book.title))
      && Contains(head, IdentifierLine(uuid))
      && Contains(head, ModifiedLine(now)) && Contains(head, DateLine(now)) && Contains(head, TimestampMeta(now))
  {
    var lines := Azw3HeadLines(book, uuid, now);
    HeadLine(lines, 1);
    HeadLine(lines, 14);
    HeadLine(lines, 4);
    HeadLine(lines, 5);
    HeadLine(lines, 9);
    HeadLine(lines, 13);
  }

  /** After `dc:date` comes a line of eight spaces and then the comment
      that opens the AZW3 metadata. */
  lemma Azw3DateThenComment(book: Book, uuid: JsString, now: JsString)
    ensures Contains(Azw3Head(book, uuid, now),
                     Lit("\n        <dc:date>") + now + Lit("</dc:date>")
                     + Lit("\n"
                           + "        \n"
                           + "        <!-- AZW3 " + "specific metadata " + "-->"))
  {
    HeadLinePair(Azw3HeadLines(book, uuid, now), 9);
  }

  /** Unlike EPUB, the metadata holds the cover `<meta>` for every book,
      with or without a cover image, while the `cover-image` item it
      points at is only there with a cover. */
  lemma Azw3CoverMeta(book: Book, image: Option<CoverImage>, uuid: JsString, now: JsString)
    ensures Contains(Azw3Head(book, uuid, now), CoverMetaLine(()))
    ensures CoverItem(book, image) != [] <==> HasCover(book, image)
  {
    HeadLine(Azw3HeadLines(book, uuid, now), 11);
    if HasCover(book, image) {
      assert |CoverItem(book, image)| > 0;
    }
  }

  // ---------------------------------------------------------------------
  // generateAZW3Data: the entries of the archive
  // ---------------------------------------------------------------------

  /** `generateAZW3Data()`: the archive entries. The OPF and the NCX each
      call `generateUUID` for themselves; `now` is the ISO time, `css` the
      stylesheet text. */
  method GenerateAzw3Data(book: Book, image: Option<CoverImage>, opfDraws: UuidDraws, ncxDraws: UuidDraws, now: JsString, css: JsString)
    returns (entries: seq<Entry>)
    ensures entries == PackageEntries(book, image, Azw3OpfText(book, image, GenerateUuid(opfDraws), now),
                                      NcxText(book, GenerateUuid(ncxDraws)), TocText(book), css)
  {
    var opfUuid := GenerateUuid(opfDraws);
    var opf := GenerateAzw3ContentOpf(book, image, opfUuid, now);
    var ncxUuid := GenerateUuid(ncxDraws);
    var ncx := GenerateTocNcx(book, ncxUuid);
    var toc := GenerateTocXhtml(book);
    entries := AddPackageEntries(book, image, opf, ncx, toc, css);
  }

  /** The AZW3 entries are the EPUB entries without `mimetype`: none of
      them is stored uncompressed and none is named `mimetype`. */
  lemma Azw3Entries(book: Book, image: Option<CoverImage>, opf: JsString, ncx: JsString, toc: JsString, css: JsString)
    ensures var es := PackageEntries(book, image, opf, ncx, toc, css);
      && Epub.EpubEntries(book, image, opf, ncx, toc, css) == [Epub.MimetypeEntry(())] + es
      && (forall i :: 0 <= i < |es| ==> !es[i].store && es[i].path != Epub.MimetypeEntry(()).path)
  {
    PackageOptions(book, image, opf, ncx, toc, css);
    PackagePathsUpper(book, image, opf, ncx, toc, css);
    assert Epub.MimetypeEntry(()).path[0] == 'm' as int;
  }

  /** `50 + (processedChapters / totalChapters) * 30` after chapter `k`:
      strictly increasing, above 50 and at most 80. */
  lemma Azw3Progress(k: nat, n: nat)
    requires 1 <= k <= n
    ensures 50.0 < ChapterProgress(50.0, 30.0, k, n) <= 80.0
    ensures k < n ==> ChapterProgress(50.0, 30.0, k, n) < ChapterProgress(50.0, 30.0, k + 1, n)
  {
    ProgressMonotone(50.0, 30.0, 0, k, n);
    if k < n {
      ProgressMonotone(50.0, 30.0, k, k + 1, n);
    }
  }
}
