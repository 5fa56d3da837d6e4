/** The EPUB generators `script.js` still defines next to the format
    modules: `generateContentOPF` and `generateTOCNCX`. Their layout differs
    from `scripts/epub-converter.js`: the nav document is the first spine
    item and the NCX's own navPoint, and the chapters follow it. */
module Legacy {
  import opened JsText
  import opened Wrappers
  import opened Markup
  import opened Uuid
  import opened Book
  import opened EpubFamily

  /** `'urn:uuid:' + this.generateUUID()` */
  function UrnUuid(draws: UuidDraws): JsString
  {
    Lit("urn:uuid:") + GenerateUuid(draws)
  }

  // ---------------------------------------------------------------------
  // generateContentOPF
  // ---------------------------------------------------------------------

  function LegacyOpfHead(book: Book, uuid: JsString, now: JsString): JsString
  {
    Lit("<?xml version=\"1.0\" " + "encoding=\"UTF-8\"?>\n"
        + "<package xmlns=" + "\"http://" + "www.idpf.org/2007/" + "opf\" " + "unique-identifier=" + "\"BookId\" version=" + "\"3.0\">\n"
        + "  <metadata " + "xmlns:dc=\"http://" + "purl.org/dc/" + "elements/1.1/\">\n"
        + "    <dc:identifier " + "id=\"BookId\">")
    + uuid
    + Lit("</dc:identifier>\n"
        + "    <dc:title>") + EscapeXml(book.title)
    + Lit("</dc:title>\n"
        + "    <dc:creator>") + EscapeXml(book.author)
    + Lit("</dc:creator>\n"
        + "    <dc:description>") + EscapeXml(book.description)
    + Lit("</dc:description>\n"
        + "    <dc:language>en" + "</dc:language>\n"
        + "    <dc:date>") + now
    + Lit("</dc:date>\n"
        + "    <meta name=" + "\"cover\" content=" + "\"cover-image\"/>\n"
        + "  </metadata>\n"
        + "  \n"
        + "  <manifest>\n"
        + "    <item id=\"toc\" " + "href=\"toc.xhtml\" " + "media-type=" + "\"application/" + "xhtml+xml\" " + "properties=\"nav\"/>\n"
        + "    <item id=\"ncx\" " + "href=\"toc.ncx\" " + "media-type=" + "\"application/" + "x-dtbncx+xml\"/>\n"
        + "    <item id=" + "\"style\" href=" + "\"styles/style.css\" " + "media-type=\"text/" + "css\"/>\n")
  }

  /** The cover item: written whenever a cover image was loaded, with the
      image's own MIME type, whether or not the book names a cover. */
  function LegacyCoverItem(image: Option<CoverImage>): JsString
  {
    if image.Some? then
      Lit("    <item id=" + "\"cover-image\" href=" + "\"images/cover.") + image.value.extension
      + Lit("\" media-type=\"") + image.value.mimeType + Lit("\"/>\n")
    else []
  }

  function LegacyItemText(id: JsString): JsString
  {
    Lit("    <item id=\"") + id + Lit("\" href=\"content/") + id + Lit(".xhtml\" media-type=" + "\"application/" + "xhtml+xml\"/>\n")
  }

  function LegacyItemrefText(id: JsString): JsString
  {
    Lit("    <itemref idref=\"") + id + Lit("\"/>\n")
  }

  function LegacyItem(u: (), k: nat, v: Volume, c: Chapter): JsString
  {
    LegacyItemText(ChapterStem(v, c))
  }

  function LegacyItemref(u: (), k: nat, v: Volume, c: Chapter): JsString
  {
    LegacyItemrefText(ChapterStem(v, c))
  }

  /** The spine opens with the nav document. */
  function LegacySpineHead(u: ()): JsString
  {
    Lit("  </manifest>\n"
        + "  \n"
        + "  <spine toc=\"ncx\">\n"
        + "    <itemref idref=" + "\"toc\"/>\n")
  }

  function LegacyOpfFoot(u: ()): JsString
  {
    Lit("  </spine>\n"
        + "  \n"
        + "  <guide>\n"
        + "    <reference type=" + "\"toc\" title=\"Table " + "of Contents\" href=" + "\"toc.xhtml\"/>\n"
        + "  </guide>\n"
        + "</package>")
  }

  /** The `manifest` accumulator after the chapter loop. */
  function LegacyManifest(image: Option<CoverImage>, vols: seq<Volume>): JsString
  {
    LegacyCoverItem(image) + VolumesOut((), vols, NoOut, LegacyItem, NoOut)
  }

  /** The `spine` accumulator after the chapter loop. */
  function LegacySpine(vols: seq<Volume>): JsString
  {
    VolumesOut((), vols, NoOut, LegacyItemref, NoOut)
  }

  function LegacyOpfText(book: Book, image: Option<CoverImage>, uuid: JsString, now: JsString): JsString
  {
    LegacyOpfHead(book, uuid, now) + LegacyManifest(image, book.content)
    + LegacySpineHead(()) + LegacySpine(book.content) + LegacyOpfFoot(())
  }

  /** The chapter loop of `generateContentOPF`, appending to `manifest`
      (which already holds the cover item) and to `spine`. */
  method LegacyItems(image: Option<CoverImage>, vols: seq<Volume>) returns (manifest: JsString, spine: JsString)
    ensures manifest == LegacyManifest(image, vols)
    ensures spine == LegacySpine(vols)
  {
    manifest, spine := WalkTwice((), LegacyCoverItem(image), [], vols, LegacyItem, LegacyItemref);
  }

  /** Legacy `generateContentOPF()`, with its UUID draws and its clock
      reading passed in. */
  method LegacyGenerateContentOpf(book: Book, image: Option<CoverImage>, draws: UuidDraws, now: JsString) returns (opf: JsString)
    ensures opf == LegacyOpfText(book, image, UrnUuid(draws), now)
  {
    var uuid := UrnUuid(draws);
    var manifest, spine := LegacyItems(image, book.content);
    opf := LegacyOpfHead(book, uuid, now) + manifest + LegacySpineHead(()) + spine + LegacyOpfFoot(());
  }

  /** The manifest lists, after any cover item, one item per id of
      `ChapterIds`; the spine lists the nav document `toc` (in its head),
      then itemrefs to the same ids in the same order. */
  lemma LegacyOpfIds(image: Option<CoverImage>, vols: seq<Volume>)
    ensures LegacyManifest(image, vols) == LegacyCoverItem(image) + ConcatMap(LegacyItemText, ChapterIds(vols))
    ensures LegacySpine(vols) == ConcatMap(LegacyItemrefText, ChapterIds(vols))
  {
    LegacyManifestIds(vols);
    LegacySpineIds(vols);
  }

  lemma LegacyManifestIds(vols: seq<Volume>)
    ensures VolumesOut((), vols, NoOut, LegacyItem, NoOut) == ConcatMap(LegacyItemText, ChapterIds(vols))
  {
    WalkIsIndexed((), vols, LegacyItem);
    ThroughIds(0, Traversal(vols), LegacyItem, LegacyItemText);
  }

  lemma LegacySpineIds(vols: seq<Volume>)
    ensures LegacySpine(vols) == ConcatMap(LegacyItemrefText, ChapterIds(vols))
  {
    WalkIsIndexed((), vols, LegacyItemref);
    ThroughIds(0, Traversal(vols), LegacyItemref, LegacyItemrefText);
  }

  /** Unlike the format modules, the legacy cover item depends on the
      loaded image alone. */
  lemma LegacyCoverItemIff(image: Option<CoverImage>)
    ensures LegacyCoverItem(image) != [] <==> image.Some?
  {
    if image.Some? {
      assert |LegacyCoverItem(image)| > 0;
    }
  }

  // ---------------------------------------------------------------------
  // generateTOCNCX
  // ---------------------------------------------------------------------

  /** A navPoint as the legacy template writes it; its id is `navPoint-`
      followed by its play order. */
  function RenderLegacyNavPoint(p: NavPoint): JsString
  {
    Lit("    <navPoint id=" + "\"navPoint-") + NatToDecimal(p.order) + Lit("\" playOrder=\"") + NatToDecimal(p.order)
    + Lit("\">\n"
        + "      <navLabel>\n"
        + "        <text>") + EscapeXml(p.text)
    + Lit("</text>\n"
        + "      </navLabel>\n"
        + "      <content src=\"") + p.src
    + Lit("\"/>\n    </navPoint>\n")
  }

  function RenderLegacyNavMap(pts: seq<NavPoint>): JsString
  {
    ConcatMap(RenderLegacyNavPoint, pts)
  }

  /** The navPoint of the nav document itself, written in the template. */
  const TOC_NAV_POINT: NavPoint := NavPoint(1, Lit("Table of Contents"), Lit("toc.xhtml"))

  /** The navPoint of the chapter numbered `k` (0-based) in traversal
      order: `playOrder` starts at 2, after the nav document's 1. */
  function LegacyNavPointAt(u: (), k: nat, v: Volume, c: Chapter): seq<NavPoint>
  {
    [NavPoint(k + 2, v.name + Lit(" - ") + c.title, ContentHref(v, c))]
  }

  /** The text appended to `navPoints` for one chapter. */
  function LegacyNavPointText(u: (), k: nat, v: Volume, c: Chapter): JsString
  {
    RenderLegacyNavPoint(LegacyNavPointAt(u, k, v, c)[0])
  }

  function LegacyChapterNavPoints(vols: seq<Volume>): seq<NavPoint>
  {
    IndexedOut((), 0, Traversal(vols), LegacyNavPointAt)
  }

  /** The whole navMap: the nav document, then every chapter. */
  function LegacyNavMap(vols: seq<Volume>): seq<NavPoint>
  {
    [TOC_NAV_POINT] + LegacyChapterNavPoints(vols)
  }

  function LegacyNcxHead(uuid: JsString, title: JsString): JsString
  {
    Lit("<?xml version=\"1.0\" " + "encoding=\"UTF-8\"?>\n"
        + "<ncx xmlns=\"http://" + "www.daisy.org/z3986/" + "2005/ncx/\" version=" + "\"2005-1\">\n"
        + "  <head>\n"
        + "    <meta name=" + "\"dtb:uid\" content=\"")
    + uuid
    + Lit("\"/>\n"
        + "    <meta name=" + "\"dtb:depth\" content=" + "\"1\"/>\n"
        + "    <meta name=" + "\"dtb:totalPageCount\"" + " content=\"0\"/>\n"
        + "    <meta name=" + "\"dtb:maxPageNumber\" " + "content=\"0\"/>\n"
        + "  </head>\n"
        + "  \n"
        + "  <docTitle>\n"
        + "    <text>")
    + EscapeXml(title)
    + Lit("</text>\n"
        + "  </docTitle>\n"
        + "  \n"
        + "  <navMap>\n")
  }

  /** The nav document's navPoint as the template spells it out. */
  function LegacyTocNavPointText(u: ()): JsString
  {
    Lit("    <navPoint id=" + "\"navPoint-") + Lit("1") + Lit("\" playOrder=\"") + Lit("1")
    + Lit("\">\n"
        + "      <navLabel>\n"
        + "        <text>") + Lit("Table of Contents")
    + Lit("</text>\n"
        + "      </navLabel>\n"
        + "      <content src=\"") + Lit("toc.xhtml")
    + Lit("\"/>\n    </navPoint>\n")
  }

  function LegacyNcxFoot(u: ()): JsString
  {
    Lit("  </navMap>\n</ncx>")
  }

  function LegacyNcxText(book: Book, uuid: JsString): JsString
  {
    LegacyNcxHead(uuid, book.title) + LegacyTocNavPointText(())
    + VolumesOut((), book.content, NoOut, LegacyNavPointText, NoOut) + LegacyNcxFoot(())
  }

  /** Legacy `generateTOCNCX()`, with its UUID draws passed in. */
  method LegacyGenerateTocNcx(book: Book, draws: UuidDraws) returns (ncx: JsString)
    ensures ncx == LegacyNcxText(book, UrnUuid(draws))
  {
    var uuid := UrnUuid(draws);
    var navPoints := Walk((), [], book.content, NoOut, LegacyNavPointText, NoOut);
    EmptyAppend(VolumesOut((), book.content, NoOut, LegacyNavPointText, NoOut));
    ncx := LegacyNcxHead(uuid, book.title) + LegacyTocNavPointText(()) + navPoints + LegacyNcxFoot(());
  }

  /** The spelled-out navPoint of the nav document is the rendering of
      the navPoint with play order 1. */
  lemma LegacyTocNavPoint()
    ensures LegacyTocNavPointText(()) == RenderLegacyNavPoint(TOC_NAV_POINT)
  {
    XmlEscapeIdentity(Lit("Table of Contents"));
    assert NatToDecimal(1) == Lit("1");
  }

  lemma {:induction false} IndexedLegacyNavPoints(k: nat, tr: seq<(Volume, Chapter)>)
    ensures IndexedOut((), k, tr, LegacyNavPointText) == RenderLegacyNavMap(IndexedOut((), k, tr, LegacyNavPointAt))
    decreases |tr|
  {
    if tr != [] {
      var p := tr[..|tr| - 1];
      IndexedLegacyNavPoints(k, p);
      var pts := IndexedOut((), k, p, LegacyNavPointAt);
      var last := LegacyNavPointAt((), k + |tr| - 1, tr[|tr| - 1].0, tr[|tr| - 1].1);
      assert (pts + last)[..|pts + last| - 1] == pts;
    }
  }

  /** Between `<navMap>` and `</navMap>` the NCX holds exactly the rendered
      `LegacyNavMap`: the nav document's navPoint, then the chapters'. */
  lemma LegacyNcxIsNavMap(book: Book, uuid: JsString)
    ensures LegacyNcxText(book, uuid) == LegacyNcxHead(uuid, book.title) + RenderLegacyNavMap(LegacyNavMap(book.content)) + LegacyNcxFoot(())
  {
    LegacyNavPointsText(book.content);
    AppendAssoc(LegacyNcxHead(uuid, book.title), LegacyTocNavPointText(()), VolumesOut((), book.content, NoOut, LegacyNavPointText, NoOut));
  }

  lemma LegacyNavPointsText(vols: seq<Volume>)
    ensures LegacyTocNavPointText(()) + VolumesOut((), vols, NoOut, LegacyNavPointText, NoOut) == RenderLegacyNavMap(LegacyNavMap(vols))
  {
    WalkIsIndexed((), vols, LegacyNavPointText);
    IndexedLegacyNavPoints(0, Traversal(vols));
    LegacyTocNavPoint();
    ConcatMapCons(RenderLegacyNavPoint, TOC_NAV_POINT, LegacyChapterNavPoints(vols));
  }

  /** The navMap has the nav document at play order 1, then one navPoint
      per chapter: every play order equals the navPoint's position plus
      one, and so does the number in its id. */
  lemma LegacyPlayOrders(vols: seq<Volume>)
    ensures |LegacyNavMap(vols)| == ChapterTotal(vols) + 1
    ensures LegacyNavMap(vols)[0] == TOC_NAV_POINT
    ensures forall i :: 0 <= i < |LegacyNavMap(vols)| ==> LegacyNavMap(vols)[i].order == i + 1
  {
    var chapters := LegacyChapterNavPoints(vols);
    LegacyChapterOrders(vols);
    var m := [TOC_NAV_POINT] + chapters;
    assert m == LegacyNavMap(vols);
    forall i | 0 <= i < |m| ensures m[i].order == i + 1 {
      if i == 0 {
        assert m[0] == TOC_NAV_POINT;
      } else {
        assert m[i] == chapters[i - 1];
      }
    }
  }

  lemma LegacyChapterOrders(vols: seq<Volume>)
    ensures |LegacyChapterNavPoints(vols)| == ChapterTotal(vols)
    ensures forall k :: 0 <= k < |LegacyChapterNavPoints(vols)| ==> LegacyChapterNavPoints(vols)[k].order == k + 2
  {
    var tr := Traversal(vols);
    IndexedOutSingletons((), 0, tr, LegacyNavPointAt);
  }

  /** The chapters' navPoints follow the traversal order, with play orders
      2, …, n + 1 and each chapter's href as target. */
  lemma LegacyChapterPoints(vols: seq<Volume>)
    ensures |LegacyChapterNavPoints(vols)| == ChapterTotal(vols)
    ensures forall k :: 0 <= k < ChapterTotal(vols) ==>
      var v := Traversal(vols)[k].0;
      var c := Traversal(vols)[k].1;
      LegacyChapterNavPoints(vols)[k] == NavPoint(k + 2, v.name + Lit(" - ") + c.title, ContentHref(v, c))
  {
    var tr := Traversal(vols);
    var chapters := LegacyChapterNavPoints(vols);
    IndexedOutSingletons((), 0, tr, LegacyNavPointAt);
    forall k | 0 <= k < ChapterTotal(vols)
      ensures chapters[k] == NavPoint(k + 2, tr[k].0.name + Lit(" - ") + tr[k].1.title, ContentHref(tr[k].0, tr[k].1))
    {
      var j := 0 + k;
      assert j == k;
      assert chapters[k] == LegacyNavPointAt((), j, tr[k].0, tr[k].1)[0];
    }
  }
}
