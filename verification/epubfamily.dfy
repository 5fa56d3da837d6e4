/** The parts of an EPUB package that `scripts/epub-converter.js` and
    `scripts/azw3-converter.js` generate with textually identical code:
    chapter file names, `generateTOCNCX`, `generateTOCXHTML`,
    `generateChapterXHTML`, `formatChapterContent` and the container file. */
module EpubFamily {
  import opened JsText
  import opened Markup
  import opened Book
  import opened Wrappers
  import opened Archive

  // ---------------------------------------------------------------------
  // Chapter names
  // ---------------------------------------------------------------------

  /** `vol${volume.volume_index}_ch${chapter.chapter_index}`: the manifest id. */
  function ChapterStem(v: Volume, c: Chapter): JsString
  {
    Lit("vol") + IndexText(v.index) + Lit("_ch") + IndexText(c.index)
  }

  function ChapterFile(v: Volume, c: Chapter): JsString
  {
    ChapterStem(v, c) + Lit(".xhtml")
  }

  /** The chapter as referred to from `OEBPS/` (manifest, NCX and nav). */
  function ContentHref(v: Volume, c: Chapter): JsString
  {
    Lit("content/") + ChapterFile(v, c)
  }

  /** The chapter's archive path. */
  function ChapterPath(v: Volume, c: Chapter): JsString
  {
    Lit("OEBPS/content/") + ChapterFile(v, c)
  }

  /** Every reference to a chapter is its archive path with `OEBPS/` removed. */
  lemma ChapterPathIsOebpsHref(v: Volume, c: Chapter)
    ensures ChapterPath(v, c) == Lit("OEBPS/") + ContentHref(v, c)
  {
    assert Lit("OEBPS/content/") == Lit("OEBPS/") + Lit("content/");
  }

  /** `generateContainerXML()`: points at `OEBPS/content.opf`. */
  function ContainerXml(u: ()): JsString
  {
    Lit("<?xml version=\"1.0\" " + "encoding=\"UTF-8\"?>\n"
        + "<container version=" + "\"1.0\" xmlns=" + "\"urn:oasis:names:tc:" + "opendocument:xmlns:c" + "ontainer\">\n"
        + "    <rootfiles>\n"
        + "        <rootfile " + "full-path=\"OEBPS/" + "content.opf\" " + "media-type=" + "\"application/" + "oebps-package+xml\"/>" + "\n"
        + "    </rootfiles>\n"
        + "</container>")
  }

  // ---------------------------------------------------------------------
  // formatChapterContent
  // ---------------------------------------------------------------------

  const BLANK_LINE: JsString := [NEWLINE, NEWLINE]
  const PARAGRAPH_SEPARATOR: JsString := [NEWLINE, SPACE, SPACE, SPACE, SPACE]
  const P_OPEN: JsString := [LT, 0x70, GT]              // <p>
  const P_CLOSE: JsString := [LT, 0x2F, 0x70, GT]       // </p>

  /** The callback of the `map`: a piece with text becomes a paragraph of
      its trimmed, escaped text; a blank piece becomes the empty string. */
  function ParagraphOrEmpty(piece: JsString): JsString
  {
    if Trim(piece) != [] then P_OPEN + EscapeXml(Trim(piece)) + P_CLOSE else []
  }

  function MapParagraphs(pieces: seq<JsString>): (r: seq<JsString>)
    ensures |r| == |pieces|
    ensures forall i :: 0 <= i < |pieces| ==> r[i] == ParagraphOrEmpty(pieces[i])
  {
    seq(|pieces|, i requires 0 <= i < |pieces| => ParagraphOrEmpty(pieces[i]))
  }

  /** A piece yields nothing exactly when it is blank; otherwise its
      paragraph is `<p>`, text that decodes back to the trimmed piece and
      holds no raw markup, and `</p>`. */
  lemma ParagraphOrEmptySpec(piece: JsString)
    ensures ParagraphOrEmpty(piece) == [] <==> Trim(piece) == []
    ensures var p := ParagraphOrEmpty(piece);
      Trim(piece) != [] ==>
        && |p| >= |P_OPEN| + |P_CLOSE|
        && p[..|P_OPEN|] == P_OPEN && p[|p| - |P_CLOSE|..] == P_CLOSE
        && Decode(XML_TABLE, p[|P_OPEN|..|p| - |P_CLOSE|]) == Trim(piece)
        && forall i :: |P_OPEN| <= i < |p| - |P_CLOSE| ==> XmlSafeUnit(p[i])
  {
    if Trim(piece) != [] {
      var e := EscapeXml(Trim(piece));
      var p := P_OPEN + e + P_CLOSE;
      assert p[|P_OPEN|..|p| - |P_CLOSE|] == e;
      XmlRoundTrip(Trim(piece));
      XmlEscapeSafe(Trim(piece));
      forall i | |P_OPEN| <= i < |p| - |P_CLOSE| ensures XmlSafeUnit(p[i]) {
        assert p[i] == e[i - |P_OPEN|];
      }
    }
  }

  /** `formatChapterContent(content)`. */
  function FormatChapterContent(content: JsString): JsString
  {
    Join(MapParagraphs(Split(content, BLANK_LINE)), PARAGRAPH_SEPARATOR)
  }

  /** Number of pieces with text. */
  function NonBlankCount(pieces: seq<JsString>): nat
  {
    if pieces == [] then 0 else (if Trim(pieces[0]) != [] then 1 else 0) + NonBlankCount(pieces[1..])
  }

  lemma CountLtParagraph(piece: JsString)
    ensures Count(LT, ParagraphOrEmpty(piece)) == if Trim(piece) != [] then 2 else 0
  {
    if Trim(piece) != [] {
      var e := EscapeXml(Trim(piece));
      XmlEscapeSafe(Trim(piece));
      CountAbsent(LT, e);
      CountAppend(LT, P_OPEN, e);
      CountAppend(LT, P_OPEN + e, P_CLOSE);
      CountLtTags();
    } else {
      CountAbsent(LT, []);
    }
  }

  /** `<p>` and `</p>` hold one `<` each. */
  lemma CountLtTags()
    ensures Count(LT, P_OPEN) == 1 && Count(LT, P_CLOSE) == 1
  {
    assert P_OPEN == [LT] + [0x70, GT];
    CountAppend(LT, [LT], [0x70, GT]);
    CountAbsent(LT, [0x70, GT]);
    assert P_CLOSE == [LT] + [0x2F, 0x70, GT];
    CountAppend(LT, [LT], [0x2F, 0x70, GT]);
    CountAbsent(LT, [0x2F, 0x70, GT]);
  }

  /** Occurrences of `u` over all of `ps`. */
  function CountEach(u: CodeUnit, ps: seq<JsString>): nat
  {
    if ps == [] then 0 else Count(u, ps[0]) + CountEach(u, ps[1..])
  }

  lemma {:induction false} CountJoin(u: CodeUnit, ps: seq<JsString>, sep: JsString)
    requires Count(u, sep) == 0
    ensures Count(u, Join(ps, sep)) == CountEach(u, ps)
    decreases |ps|
  {
    if ps == [] {
      CountAbsent(u, []);
    } else if |ps| == 1 {
      assert ps[1..] == [];
    } else {
      CountJoin(u, ps[1..], sep);
      CountAppend(u, ps[0], sep);
      CountAppend(u, ps[0] + sep, Join(ps[1..], sep));
    }
  }

  lemma {:induction false} CountLtParagraphs(pieces: seq<JsString>)
    ensures CountEach(LT, MapParagraphs(pieces)) == 2 * NonBlankCount(pieces)
    decreases |pieces|
  {
    if pieces != [] {
      CountLtParagraph(pieces[0]);
      assert MapParagraphs(pieces)[1..] == MapParagraphs(pieces[1..]);
      CountLtParagraphs(pieces[1..]);
    }
  }

  /** Every piece between blank lines that has text gives exactly one
      paragraph: the output holds two `<` (one `<p>`, one `</p>`) per such
      piece and no other `<`, since the text inside is escaped. */
  lemma FormatChapterContentParagraphs(content: JsString)
    ensures Count(LT, FormatChapterContent(content)) == 2 * NonBlankCount(Split(content, BLANK_LINE))
  {
    CountAbsent(LT, PARAGRAPH_SEPARATOR);
    CountJoin(LT, MapParagraphs(Split(content, BLANK_LINE)), PARAGRAPH_SEPARATOR);
    CountLtParagraphs(Split(content, BLANK_LINE));
  }

  /** `generateChapterXHTML(volume, chapter)`. */
  function ChapterXhtml(v: Volume, c: Chapter): JsString
  {
    Lit("<?xml version=\"1.0\" " + "encoding=\"UTF-8\"?>\n"
        + "<!DOCTYPE html>\n"
        + "<html xmlns=\"http://" + "www.w3.org/1999/" + "xhtml\">\n"
        + "<head>\n"
        + "    <title>")
    + EscapeXml(c.title)
    + Lit("</title>\n"
        + "    <link rel=" + "\"stylesheet\" href=" + "\"../styles/" + "style.css\"/>\n"
        + "</head>\n"
        + "<body>\n"
        + "    <h1>")
    + EscapeXml(c.title)
    + Lit("</h1>\n    ")
    + FormatChapterContent(c.content)
    + Lit("\n</body>\n</html>")
  }

  // ---------------------------------------------------------------------
  // generateTOCNCX
  // ---------------------------------------------------------------------

  /** One entry of the NCX navMap: its play order, label text and target. */
  datatype NavPoint = NavPoint(order: nat, text: JsString, src: JsString)

  /** The navPoint of the chapter numbered `k` (0-based) in traversal
      order: `playOrder` starts at 1 and goes up by one per chapter. */
  function NavPointAt(u: (), k: nat, v: Volume, c: Chapter): seq<NavPoint>
  {
    [NavPoint(k + 1, v.name + Lit(" - ") + c.title, ContentHref(v, c))]
  }

  function NavMap(vols: seq<Volume>): seq<NavPoint>
  {
    IndexedOut((), 0, Traversal(vols), NavPointAt)
  }

  /** The navMap has one navPoint per chapter, in traversal order, with
      play orders 1, 2, …, n and each chapter's href as target. */
  lemma NavMapSpec(vols: seq<Volume>)
    ensures |NavMap(vols)| == ChapterTotal(vols)
    ensures forall k :: 0 <= k < ChapterTotal(vols) ==>
      var v := Traversal(vols)[k].0;
      var c := Traversal(vols)[k].1;
      NavMap(vols)[k] == NavPoint(k + 1, v.name + Lit(" - ") + c.title, ContentHref(v, c))
  {
    var tr := Traversal(vols);
    IndexedOutSingletons((), 0, tr, NavPointAt);
    forall k | 0 <= k < ChapterTotal(vols)
      ensures NavMap(vols)[k] == NavPoint(k + 1, tr[k].0.name + Lit(" - ") + tr[k].1.title, ContentHref(tr[k].0, tr[k].1))
    {
      var j := 0 + k;
      assert j == k;
      assert NavMap(vols)[k] == NavPointAt((), j, tr[k].0, tr[k].1)[0];
    }
  }

  /** A navPoint as the template writes it: its id is `navPoint-` followed
      by the same number as its play order. */
  function RenderNavPoint(p: NavPoint): JsString
  {
    Lit("\n"
        + "        <navPoint " + "id=\"navPoint-") + NatToDecimal(p.order) + Lit("\" playOrder=\"") + NatToDecimal(p.order)
    + Lit("\">\n"
        + "            " + "<navLabel>\n"
        + "                " + "<text>") + EscapeXml(p.text)
    + Lit("</text>\n"
        + "            </" + "navLabel>\n"
        + "            " + "<content src=\"") + p.src
    + Lit("\"/>\n        </navPoint>")
  }

  function RenderNavMap(pts: seq<NavPoint>): JsString
  {
    if pts == [] then [] else RenderNavMap(pts[..|pts| - 1]) + RenderNavPoint(pts[|pts| - 1])
  }

  /** The text appended for one chapter inside the nested `forEach`. */
  function NavPointText(u: (), k: nat, v: Volume, c: Chapter): JsString
  {
    RenderNavPoint(NavPointAt(u, k, v, c)[0])
  }

  function NcxHead(uuid: JsString, title: JsString): JsString
  {
    Lit("<?xml version=\"1.0\" " + "encoding=\"UTF-8\"?>\n"
        + "<ncx xmlns=\"http://" + "www.daisy.org/z3986/" + "2005/ncx/\" version=" + "\"2005-1\">\n"
        + "    <head>\n"
        + "        <meta name=" + "\"dtb:uid\" content=\"")
    + uuid
    + Lit("\"/>\n"
        + "        <meta name=" + "\"dtb:depth\" content=" + "\"2\"/>\n"
        + "        <meta name=" + "\"dtb:totalPageCount\"" + " content=\"0\"/>\n"
        + "        <meta name=" + "\"dtb:maxPageNumber\" " + "content=\"0\"/>\n"
        + "    </head>\n"
        + "    <docTitle>\n"
        + "        <text>")
    + EscapeXml(title)
    + Lit("</text>\n"
        + "    </docTitle>\n"
        + "    <navMap>")
  }

  function NcxFoot(u: ()): JsString
  {
    Lit("\n    </navMap>\n</ncx>")
  }

  function NcxText(book: Book, uuid: JsString): JsString
  {
    NcxHead(uuid, book.title) + VolumesOut((), book.content, NoOut, NavPointText, NoOut) + NcxFoot(())
  }

  /** `generateTOCNCX()`, with the UUID it draws passed in. */
  method GenerateTocNcx(book: Book, uuid: JsString) returns (ncx: JsString)
    ensures ncx == NcxText(book, uuid)
  {
    ncx := NcxHead(uuid, book.title);
    ncx := Walk((), ncx, book.content, NoOut, NavPointText, NoOut);
    ncx := ncx + NcxFoot(());
  }

  lemma {:induction false} IndexedNavPoints(k: nat, tr: seq<(Volume, Chapter)>)
    ensures IndexedOut((), k, tr, NavPointText) == RenderNavMap(IndexedOut((), k, tr, NavPointAt))
    decreases |tr|
  {
    if tr != [] {
      var p := tr[..|tr| - 1];
      IndexedNavPoints(k, p);
      var pts := IndexedOut((), k, p, NavPointAt);
      var last := NavPointAt((), k + |tr| - 1, tr[|tr| - 1].0, tr[|tr| - 1].1);
      assert (pts + last)[..|pts + last| - 1] == pts;
    }
  }

  /** The NCX is its head, the rendered navMap of `NavMap`, and its foot:
      nothing else sits between `<navMap>` and `</navMap>`. */
  lemma NcxIsNavMap(book: Book, uuid: JsString)
    ensures NcxText(book, uuid) == NcxHead(uuid, book.title) + RenderNavMap(NavMap(book.content)) + NcxFoot(())
  {
    WalkIsIndexed((), book.content, NavPointText);
    IndexedNavPoints(0, Traversal(book.content));
  }

  // ---------------------------------------------------------------------
  // generateTOCXHTML
  // ---------------------------------------------------------------------

  function TocHead(u: ()): JsString
  {
    Lit("<?xml version=\"1.0\" " + "encoding=\"UTF-8\"?>\n"
        + "<!DOCTYPE html>\n"
        + "<html xmlns=\"http://" + "www.w3.org/1999/" + "xhtml\" xmlns:epub=" + "\"http://" + "www.idpf.org/2007/" + "ops\">\n"
        + "<head>\n"
        + "    <title>Table of " + "Contents</title>\n"
        + "    <link rel=" + "\"stylesheet\" href=" + "\"styles/style.css\"/>" + "\n"
        + "</head>\n"
        + "<body>\n"
        + "    <nav epub:type=" + "\"toc\" id=\"toc\">\n"
        + "        <h1>Table " + "of Contents</h1>\n"
        + "        <ol>")
  }

  function TocFoot(u: ()): JsString
  {
    Lit("\n"
        + "        </ol>\n"
        + "    </nav>\n"
        + "</body>\n"
        + "</html>")
  }

  function TocVolumeOpen(u: (), v: Volume): JsString
  {
    Lit("\n            <li><span>") + EscapeXml(v.name) + Lit("</span>\n"
        + "                <ol>")
  }

  function TocChapter(u: (), k: nat, v: Volume, c: Chapter): JsString
  {
    Lit("\n"
        + "                    " + "<li><a href=\"") + ContentHref(v, c) + Lit("\">") + EscapeXml(c.title) + Lit("</a></li>")
  }

  function TocVolumeClose(u: (), v: Volume): JsString
  {
    Lit("\n"
        + "                </" + "ol>\n"
        + "            </li>")
  }

  /** The nav document: one list item per volume holding one link per
      chapter, in order. */
  function TocText(book: Book): JsString
  {
    TocHead(()) + VolumesOut((), book.content, TocVolumeOpen, TocChapter, TocVolumeClose) + TocFoot(())
  }

  /** The nav entry of chapter `j` of volume `i`, linking its file with
      its escaped title, comes right after the entries and volume items of
      everything before it: the nav document lists every chapter, in
      reading order. */
  lemma TocLinksInOrder(book: Book, i: nat, j: nat)
    requires i < |book.content| && j < |book.content[i].chapters|
    ensures var vols := book.content;
      var v := vols[i];
      var c := v.chapters[j];
      var k := ChapterTotal(vols[..i]);
      TocHead(())
      + (VolumesOut((), vols[..i], TocVolumeOpen, TocChapter, TocVolumeClose) + TocVolumeOpen((), v)
         + ChaptersOut((), k, v, v.chapters[..j], TocChapter))
      + TocChapter((), k + j, v, c)
      <= TocText(book)
  {
    WrappedPrefix(TocHead(()), TocFoot(()), (), book.content, i, j, TocVolumeOpen, TocChapter, TocVolumeClose);
  }

  /** `generateTOCXHTML()`. */
  method GenerateTocXhtml(book: Book) returns (toc: JsString)
    ensures toc == TocText(book)
  {
    toc := Walk((), TocHead(()), book.content, TocVolumeOpen, TocChapter, TocVolumeClose);
    toc := toc + TocFoot(());
  }

  // ---------------------------------------------------------------------
  // Metadata lines both OPF generators write alike
  // ---------------------------------------------------------------------

  function TitleLine(title: JsString): JsString
  {
    Lit("\n        <dc:title>") + EscapeXml(title) + Lit("</dc:title>")
  }

  function LanguageLine(u: ()): JsString
  {
    Lit("\n"
        + "        " + "<dc:language>en</" + "dc:language>")
  }

  function IdentifierLine(uuid: JsString): JsString
  {
    Lit("\n"
        + "        " + "<dc:identifier id=" + "\"BookId\">") + uuid + Lit("</dc:identifier>")
  }

  function ModifiedLine(now: JsString): JsString
  {
    Lit("\n"
        + "        <meta " + "property=" + "\"dcterms:modified\">") + now + Lit("</meta>")
  }

  /** `escapeXML(bookData.description || '')` */
  function DescriptionLine(description: JsString): JsString
  {
    Lit("\n"
        + "        " + "<dc:description>") + EscapeXml(description) + Lit("</dc:description>")
  }

  function RightsLine(u: ()): JsString
  {
    Lit("\n"
        + "        <dc:rights>" + "All rights reserved" + "</dc:rights>")
  }

  function DateLine(now: JsString): JsString
  {
    Lit("\n        <dc:date>") + now + Lit("</dc:date>")
  }

  /** Each line of a head written as a list of lines occurs in it. */
  lemma HeadLine(lines: seq<JsString>, i: nat)
    requires i < |lines|
    ensures Contains(Concat(lines), lines[i])
  {
    ConcatContains(lines, i, |lines|);
  }

  /** Two neighbouring lines occur together, the first right before the
      second. */
  lemma HeadLinePair(lines: seq<JsString>, i: nat)
    requires i + 1 < |lines|
    ensures Contains(Concat(lines), lines[i] + lines[i + 1])
  {
    var front := ConcatFirst(lines, i);
    var pair := lines[i] + lines[i + 1];
    assert ConcatFirst(lines, i + 2) == front + pair + [];
    ContainsMiddle(front, pair, []);
    ConcatGrows(lines, pair, i + 2, |lines|);
  }

  // ---------------------------------------------------------------------
  // The OPF from `<manifest>` on, which both OPF generators write alike
  // ---------------------------------------------------------------------

  function ManifestHead(u: ()): JsString
  {
    Lit("\n"
        + "    </metadata>\n"
        + "    <manifest>\n"
        + "        <item id=" + "\"ncx\" href=" + "\"toc.ncx\" " + "media-type=" + "\"application/" + "x-dtbncx+xml\"/>\n"
        + "        <item id=" + "\"nav\" href=" + "\"toc.xhtml\" " + "media-type=" + "\"application/" + "xhtml+xml\" " + "properties=\"nav\"/>\n"
        + "        <item id=" + "\"css\" href=\"styles/" + "style.css\" " + "media-type=\"text/" + "css\"/>")
  }

  function SpineHead(u: ()): JsString
  {
    Lit("\n"
        + "    </manifest>\n"
        + "    <spine toc=" + "\"ncx\">")
  }

  function OpfFoot(u: ()): JsString
  {
    Lit("\n    </spine>\n</package>")
  }

  /** The media subtype of the cover: `jpeg` for the extension `jpg`. */
  function MediaSubtype(extension: JsString): JsString
  {
    if extension == Lit("jpg") then Lit("jpeg") else extension
  }

  /** The `cover-image` manifest item, present exactly when the cover is. */
  function CoverItem(book: Book, image: Option<CoverImage>): JsString
  {
    if HasCover(book, image) then
      Lit("\n"
          + "        <item id=" + "\"cover-image\" href=" + "\"images/cover.") + image.value.extension
      + Lit("\" media-type=\"image/") + MediaSubtype(image.value.extension) + Lit("\" properties=" + "\"cover-image\"/>")
    else []
  }

  /** The manifest item of the chapter with id `id`; its file is `id.xhtml`. */
  function ManifestItemText(id: JsString): JsString
  {
    Lit("\n        <item id=\"") + id + Lit("\" href=\"content/") + id
    + Lit(".xhtml\" media-type=" + "\"application/" + "xhtml+xml\"/>")
  }

  function ItemrefText(id: JsString): JsString
  {
    Lit("\n"
        + "        <itemref " + "idref=\"") + id + Lit("\"/>")
  }

  function ManifestItem(u: (), k: nat, v: Volume, c: Chapter): JsString
  {
    ManifestItemText(ChapterStem(v, c))
  }

  function SpineItem(u: (), k: nat, v: Volume, c: Chapter): JsString
  {
    ItemrefText(ChapterStem(v, c))
  }

  function OpfBody(book: Book, image: Option<CoverImage>): JsString
  {
    ManifestHead(()) + CoverItem(book, image)
    + VolumesOut((), book.content, NoOut, ManifestItem, NoOut)
    + SpineHead(())
    + VolumesOut((), book.content, NoOut, SpineItem, NoOut)
    + OpfFoot(())
  }

  /** The manifest and the spine, written after the metadata. */
  method GenerateOpfBody(book: Book, image: Option<CoverImage>) returns (r: JsString)
    ensures r == OpfBody(book, image)
  {
    r := ManifestHead(()) + CoverItem(book, image);
    r := Walk((), r, book.content, NoOut, ManifestItem, NoOut);
    r := r + SpineHead(());
    r := Walk((), r, book.content, NoOut, SpineItem, NoOut);
    r := r + OpfFoot(());
  }

  function IdAt(u: (), k: nat, v: Volume, c: Chapter): seq<JsString>
  {
    [ChapterStem(v, c)]
  }

  /** The chapter ids `vol{vi}_ch{ci}` in traversal order. */
  function ChapterIds(vols: seq<Volume>): seq<JsString>
  {
    IndexedOut((), 0, Traversal(vols), IdAt)
  }

  lemma ChapterIdsSpec(vols: seq<Volume>)
    ensures |ChapterIds(vols)| == ChapterTotal(vols)
    ensures forall k :: 0 <= k < ChapterTotal(vols) ==>
      ChapterIds(vols)[k] == ChapterStem(Traversal(vols)[k].0, Traversal(vols)[k].1)
  {
    var tr := Traversal(vols);
    IndexedOutSingletons((), 0, tr, IdAt);
    forall k | 0 <= k < ChapterTotal(vols) ensures ChapterIds(vols)[k] == ChapterStem(tr[k].0, tr[k].1) {
      var j := 0 + k;
      assert j == k;
      assert ChapterIds(vols)[k] == IdAt((), j, tr[k].0, tr[k].1)[0];
    }
  }

  /** Text written per chapter that depends on the chapter only through its
      id is the same text written per id of `ChapterIds`. */
  lemma {:induction false} ThroughIds(k: nat, tr: seq<(Volume, Chapter)>, ch: ((), nat, Volume, Chapter) -> JsString, f: JsString -> JsString)
    requires forall n: nat, v: Volume, c: Chapter :: ch((), n, v, c) == f(ChapterStem(v, c))
    ensures IndexedOut((), k, tr, ch) == ConcatMap(f, IndexedOut((), k, tr, IdAt))
    decreases |tr|
  {
    if tr != [] {
      var n := |tr| - 1;
      ThroughIds(k, tr[..n], ch, f);
      var ids := IndexedOut((), k, tr[..n], IdAt);
      var all := ids + IdAt((), k + n, tr[n].0, tr[n].1);
      assert all[..|all| - 1] == ids;
    }
  }

  /** The manifest lists one item per id of `ChapterIds`, each pointing at
      `content/<id>.xhtml`, and the spine lists itemrefs to exactly the
      same ids in the same order, and nothing else. */
  lemma OpfBodyIds(book: Book, image: Option<CoverImage>)
    ensures OpfBody(book, image) ==
      ManifestHead(()) + CoverItem(book, image)
      + ConcatMap(ManifestItemText, ChapterIds(book.content))
      + SpineHead(())
      + ConcatMap(ItemrefText, ChapterIds(book.content))
      + OpfFoot(())
  {
    ManifestIds(book.content);
    SpineIds(book.content);
  }

  lemma ManifestIds(vols: seq<Volume>)
    ensures VolumesOut((), vols, NoOut, ManifestItem, NoOut) == ConcatMap(ManifestItemText, ChapterIds(vols))
  {
    WalkIsIndexed((), vols, ManifestItem);
    ThroughIds(0, Traversal(vols), ManifestItem, ManifestItemText);
  }

  lemma SpineIds(vols: seq<Volume>)
    ensures VolumesOut((), vols, NoOut, SpineItem, NoOut) == ConcatMap(ItemrefText, ChapterIds(vols))
  {
    WalkIsIndexed((), vols, SpineItem);
    ThroughIds(0, Traversal(vols), SpineItem, ItemrefText);
  }

  // ---------------------------------------------------------------------
  // Archive entries both packages share
  // ---------------------------------------------------------------------

  function ChapterEntry(u: (), k: nat, v: Volume, c: Chapter): seq<Entry>
  {
    [TextEntry(ChapterPath(v, c), ChapterXhtml(v, c))]
  }

  /** The chapter loop adds one entry per chapter, in traversal order. */
  function ChapterEntries(vols: seq<Volume>): seq<Entry>
  {
    VolumesOut((), vols, NoOut, ChapterEntry, NoOut)
  }

  lemma ChapterEntriesLength(vols: seq<Volume>)
    ensures |ChapterEntries(vols)| == ChapterTotal(vols)
  {
    WalkIsIndexed((), vols, ChapterEntry);
    IndexedOutSingletons((), 0, Traversal(vols), ChapterEntry);
  }

  /** Chapter entries carry no option. */
  lemma ChapterEntriesPlain(vols: seq<Volume>)
    ensures forall e :: e in ChapterEntries(vols) ==> Plain(e)
  {
    ChapterEntriesSpec(vols);
  }

  lemma ChapterEntriesSpec(vols: seq<Volume>)
    ensures |ChapterEntries(vols)| == ChapterTotal(vols)
    ensures forall k :: 0 <= k < ChapterTotal(vols) ==>
      var v := Traversal(vols)[k].0;
      var c := Traversal(vols)[k].1;
      ChapterEntries(vols)[k] == TextEntry(ChapterPath(v, c), ChapterXhtml(v, c))
  {
    var tr := Traversal(vols);
    WalkIsIndexed((), vols, ChapterEntry);
    IndexedOutSingletons((), 0, tr, ChapterEntry);
    forall k | 0 <= k < ChapterTotal(vols)
      ensures ChapterEntries(vols)[k] == TextEntry(ChapterPath(tr[k].0, tr[k].1), ChapterXhtml(tr[k].0, tr[k].1))
    {
      var j := 0 + k;
      assert j == k;
      assert ChapterEntries(vols)[k] == ChapterEntry((), j, tr[k].0, tr[k].1)[0];
    }
  }

  function CoverPath(extension: JsString): JsString
  {
    Lit("OEBPS/images/cover.") + extension
  }

  /** The cover entry: base64 data taken after the data URL's first comma,
      present exactly when the book names a cover and its image loaded. */
  function CoverEntries(book: Book, image: Option<CoverImage>): (r: seq<Entry>)
    ensures |r| == (if HasCover(book, image) then 1 else 0)
    ensures HasCover(book, image) ==> r[0] == Entry(CoverPath(image.value.extension), AfterFirstComma(image.value.data), false, true)
  {
    if HasCover(book, image) then
      [Entry(CoverPath(image.value.extension), AfterFirstComma(image.value.data), false, true)]
    else []
  }

  function StyleEntry(css: JsString): Entry
  {
    TextEntry(Lit("OEBPS/styles/style.css"), css)
  }

  /** The four documents added right after any `mimetype`, in order. */
  function PackageFront(opf: JsString, ncx: JsString, toc: JsString): seq<Entry>
  {
    [TextEntry(Lit("META-INF/container.xml"), ContainerXml(())),
     TextEntry(Lit("OEBPS/content.opf"), opf),
     TextEntry(Lit("OEBPS/toc.ncx"), ncx),
     TextEntry(Lit("OEBPS/toc.xhtml"), toc)]
  }

  /** The entries both converters add from `META-INF/container.xml` on, in
      order, given the package document, the NCX, the nav document and the
      stylesheet they generated. */
  function PackageEntries(book: Book, image: Option<CoverImage>, opf: JsString, ncx: JsString, toc: JsString, css: JsString): seq<Entry>
  {
    PackageFront(opf, ncx, toc) + ChapterEntries(book.content) + CoverEntries(book, image) + [StyleEntry(css)]
  }

  /** The `zip.file` calls both converters make from the container file on. */
  method AddPackageEntries(book: Book, image: Option<CoverImage>, opf: JsString, ncx: JsString, toc: JsString, css: JsString)
    returns (entries: seq<Entry>)
    ensures entries == PackageEntries(book, image, opf, ncx, toc, css)
  {
    entries := [TextEntry(Lit("META-INF/container.xml"), ContainerXml(()))];
    entries := entries + [TextEntry(Lit("OEBPS/content.opf"), opf)];
    entries := entries + [TextEntry(Lit("OEBPS/toc.ncx"), ncx)];
    entries := entries + [TextEntry(Lit("OEBPS/toc.xhtml"), toc)];
    assert entries == PackageFront(opf, ncx, toc);
    entries := Walk((), entries, book.content, NoOut, ChapterEntry, NoOut);
    if HasCover(book, image) {
      var cover := image.value;
      entries := entries + [Entry(CoverPath(cover.extension), AfterFirstComma(cover.data), false, true)];
    }
    entries := entries + [StyleEntry(css)];
  }

  /** The container, the OPF, the NCX and the nav document come first, then
      one entry per chapter in traversal order, then the cover when there
      is one, and the stylesheet last. */
  lemma PackageLayout(book: Book, image: Option<CoverImage>, opf: JsString, ncx: JsString, toc: JsString, css: JsString)
    ensures var es := PackageEntries(book, image, opf, ncx, toc, css);
      var n := ChapterTotal(book.content);
      && |es| == 5 + n + (if HasCover(book, image) then 1 else 0)
      && es[..4] == PackageFront(opf, ncx, toc)
      && (forall k :: 0 <= k < n ==> es[4 + k] == ChapterEntries(book.content)[k])
      && (HasCover(book, image) ==> es[4 + n] == CoverEntries(book, image)[0])
      && es[|es| - 1] == StyleEntry(css)
  {
    ChapterEntriesLength(book.content);
    EntriesParts(PackageFront(opf, ncx, toc), ChapterEntries(book.content), CoverEntries(book, image), StyleEntry(css));
  }

  /** No entry is stored uncompressed; only the cover entry is base64. */
  lemma PackageOptions(book: Book, image: Option<CoverImage>, opf: JsString, ncx: JsString, toc: JsString, css: JsString)
    ensures var es := PackageEntries(book, image, opf, ncx, toc, css);
      var n := ChapterTotal(book.content);
      && (forall i :: 0 <= i < |es| ==> !es[i].store)
      && (forall i :: 0 <= i < |es| ==> (es[i].base64 <==> HasCover(book, image) && i == 4 + n))
  {
    var front, middle, optional := PackageFront(opf, ncx, toc), ChapterEntries(book.content), CoverEntries(book, image);
    assert |front| == 4;
    ChapterEntriesLength(book.content);
    ChapterEntriesPlain(book.content);
    PartsOptions(front, middle, optional, StyleEntry(css));
  }

  predicate UpperPath(e: Entry)
  {
    |e.path| > 0 && IsAsciiUpper(e.path[0])
  }

  /** Every package path starts with an upper-case letter: `META-INF/` or `OEBPS/`. */
  lemma PackagePathsUpper(book: Book, image: Option<CoverImage>, opf: JsString, ncx: JsString, toc: JsString, css: JsString)
    ensures var es := PackageEntries(book, image, opf, ncx, toc, css);
      forall i :: 0 <= i < |es| ==> UpperPath(es[i])
  {
    var es := PackageEntries(book, image, opf, ncx, toc, css);
    PackageMembersUpper(book, image, opf, ncx, toc, css);
    forall i | 0 <= i < |es| ensures UpperPath(es[i]) {
      assert es[i] in es;
    }
  }

  lemma PackageMembersUpper(book: Book, image: Option<CoverImage>, opf: JsString, ncx: JsString, toc: JsString, css: JsString)
    ensures forall e :: e in PackageEntries(book, image, opf, ncx, toc, css) ==> UpperPath(e)
  {
    var front, middle, optional := PackageFront(opf, ncx, toc), ChapterEntries(book.content), CoverEntries(book, image);
    ChapterEntriesUpper(book.content);
    FrontUpper(opf, ncx, toc);
    assert forall e :: e in optional ==> UpperPath(e);
    assert UpperPath(StyleEntry(css));
  }

  lemma FrontUpper(opf: JsString, ncx: JsString, toc: JsString)
    ensures forall e :: e in PackageFront(opf, ncx, toc) ==> UpperPath(e)
  {
  }

  lemma ChapterEntriesUpper(vols: seq<Volume>)
    ensures forall e :: e in ChapterEntries(vols) ==> UpperPath(e)
  {
    var tr := Traversal(vols);
    WalkIsIndexed((), vols, ChapterEntry);
    forall u: (), k: nat, v: Volume, c: Chapter, e | e in ChapterEntry(u, k, v, c) ensures UpperPath(e) {
      ChapterPathUpper(v, c);
    }
    IndexedAll((), 0, tr, ChapterEntry, UpperPath);
  }

  lemma ChapterPathUpper(v: Volume, c: Chapter)
    ensures |ChapterPath(v, c)| > 0 && IsAsciiUpper(ChapterPath(v, c)[0])
  {
  }
}
