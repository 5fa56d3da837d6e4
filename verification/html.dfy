/** `scripts/html-converter.js`: a ZIP of a style sheet, an index page
    and one page per chapter, each chapter page with links to the table of
    contents and to the previous and next chapters. */
module Html {
  import opened JsText
  import opened Wrappers
  import opened Markup
  import opened Book
  import opened Archive
  import opened EpubFamily

  // ---------------------------------------------------------------------
  // Page names and the prev/next lookup
  // ---------------------------------------------------------------------

  /** `vol${volume_index}_ch${chapter_index}.html` */
  function PageName(vi: Index, ci: Index): JsString
  {
    Lit("vol") + IndexText(vi) + Lit("_ch") + IndexText(ci) + Lit(".html")
  }

  /** A chapter page is named like the EPUB chapter file, with `.html`
      for `.xhtml`. */
  lemma PageNameStem(v: Volume, c: Chapter)
    ensures PageName(v.index, c.index) == ChapterStem(v, c) + Lit(".html")
  {
  }

  /** `xs.findIndex(hit)`: the first position whose element `hit`
      accepts, or -1 when there is none. */
  function FindIndex<T>(xs: seq<T>, hit: T -> bool): (r: int)
    ensures -1 <= r < |xs|
    ensures r >= 0 ==> hit(xs[r]) && forall j :: 0 <= j < r ==> !hit(xs[j])
    ensures r == -1 ==> forall j :: 0 <= j < |xs| ==> !hit(xs[j])
    decreases |xs|
  {
    if xs == [] then -1
    else if hit(xs[0]) then 0
    else
      var r := FindIndex(xs[1..], hit);
      if r == -1 then -1 else r + 1
  }

  /** The target of a navigation link: a volume index and a chapter index. */
  datatype Link = Link(volume: Index, chapter: Index)

  /** The position `generateChapter` gives a chapter: the first chapter of
      its volume with an equal `chapter_index` (`===` on numbers and on
      `undefined` is equality of `Index` values). */
  function Position(v: Volume, ci: Index): (r: int)
    ensures -1 <= r < |v.chapters|
  {
    FindIndex(v.chapters, (d: Chapter) => d.index == ci)
  }

  /** The first volume with an equal `volume_index`. */
  function VolumePosition(vols: seq<Volume>, vi: Index): (r: int)
    ensures -1 <= r < |vols|
  {
    FindIndex(vols, (w: Volume) => w.index == vi)
  }

  /** `prevChapter`: the chapter before the position, if the position is
      past the first. */
  function PrevLink(v: Volume, ci: Index): Option<Link>
  {
    var p := Position(v, ci);
    if p > 0 then Some(Link(v.index, v.chapters[p - 1].index)) else None
  }

  /** `nextChapter`, or else `nextVolumeChapter`: the chapter after the
      position in the same volume; failing that, the first chapter of the
      volume after the first volume with an equal `volume_index`, when
      there is such a volume and it has a chapter. The `find` over
      `chapters.includes` compares chapter objects by identity, and each
      parsed chapter object sits in exactly one volume, so it finds that
      same next volume. */
  function NextLink(book: Book, v: Volume, ci: Index): Option<Link>
  {
    var p := Position(v, ci);
    if p < |v.chapters| - 1 then Some(Link(v.index, v.chapters[p + 1].index))
    else
      var vi := VolumePosition(book.content, v.index);
      if vi < |book.content| - 1 && book.content[vi + 1].chapters != [] then
        var next := book.content[vi + 1];
        Some(Link(next.index, next.chapters[0].index))
      else None
  }

  predicate DistinctChapterIndices(v: Volume)
  {
    forall a, b :: 0 <= a < b < |v.chapters| ==> v.chapters[a].index != v.chapters[b].index
  }

  predicate DistinctVolumeIndices(vols: seq<Volume>)
  {
    forall a, b :: 0 <= a < b < |vols| ==> vols[a].index != vols[b].index
  }

  /** With distinct indices, the lookup finds every element at its own
      position. */
  lemma FindOwnPosition<T>(xs: seq<T>, j: nat, hit: T -> bool)
    requires j < |xs| && hit(xs[j])
    requires forall a :: 0 <= a < |xs| && a != j ==> !hit(xs[a])
    ensures FindIndex(xs, hit) == j
  {
  }

  /** When a volume's chapter indices are distinct and the volume indices
      are distinct, chapter `j` of volume `i` links back to chapter `j-1`,
      forward to chapter `j+1`, and from the last chapter of a volume to
      the first chapter of the next volume when that volume has one. */
  lemma NavigationOfDistinct(book: Book, i: nat, j: nat)
    requires i < |book.content| && j < |book.content[i].chapters|
    requires DistinctChapterIndices(book.content[i]) && DistinctVolumeIndices(book.content)
    ensures var vols := book.content;
      var v := vols[i];
      var chs := v.chapters;
      && PrevLink(v, chs[j].index) == (if j > 0 then Some(Link(v.index, chs[j - 1].index)) else None)
      && NextLink(book, v, chs[j].index)
         == if j + 1 < |chs| then Some(Link(v.index, chs[j + 1].index))
            else if i + 1 < |vols| && vols[i + 1].chapters != [] then Some(Link(vols[i + 1].index, vols[i + 1].chapters[0].index))
            else None
  {
    var v := book.content[i];
    var ci := v.chapters[j].index;
    FindOwnPosition(v.chapters, j, (d: Chapter) => d.index == ci);
    FindOwnPosition(book.content, i, (w: Volume) => w.index == v.index);
  }

  /** Within a volume with distinct chapter indices the links are mutual:
      the chapter a Next link leads to has a Previous link back. */
  lemma NextPrevMutual(book: Book, i: nat, j: nat)
    requires i < |book.content| && j + 1 < |book.content[i].chapters|
    requires DistinctChapterIndices(book.content[i]) && DistinctVolumeIndices(book.content)
    ensures var v := book.content[i];
      && NextLink(book, v, v.chapters[j].index) == Some(Link(v.index, v.chapters[j + 1].index))
      && PrevLink(v, v.chapters[j + 1].index) == Some(Link(v.index, v.chapters[j].index))
  {
    NavigationOfDistinct(book, i, j);
    NavigationOfDistinct(book, i, j + 1);
  }

  // ---------------------------------------------------------------------
  // generateIndex
  // ---------------------------------------------------------------------

  /** The document start shared by the index and the chapter pages, up to
      the text of `<title>`. */
  const DOC_START: JsString :=
    Lit("<!DOCTYPE html>\n"
        + "<html lang=\"en\">\n"
        + "<head>\n"
        + "    <meta charset=" + "\"UTF-8\">\n"
        + "    <meta name=" + "\"viewport\" content=" + "\"width=device-width," + " initial-scale=1.0\">" + "\n"
        + "    <title>")

  /** From `</title>` to the opening of the container's first block. */
  const DOC_TOP: JsString :=
    Lit("</title>\n"
        + "    <link rel=" + "\"stylesheet\" href=" + "\"styles.css\">\n"
        + "</head>\n"
        + "<body>\n"
        + "    <div class=" + "\"container\">\n"
        + "        ")

  function IndexHeader(book: Book): JsString
  {
    DOC_START + EscapeHtml(book.title) + DOC_TOP
    + Lit("<div class=" + "\"book-header\">\n"
        + "            <h1>") + EscapeHtml(book.title)
    + Lit("</h1>\n"
        + "            <p " + "class=\"author\">by ") + EscapeHtml(book.author) + P_CLOSE
  }

  /** Written only when the description is truthy, that is not empty. */
  function IndexDescription(description: JsString): JsString
  {
    if description != [] then
      Lit("\n"
          + "            <p " + "class=\"description\">") + EscapeHtml(description) + P_CLOSE
    else []
  }

  const TOC_START: JsString :=
    Lit("\n"
        + "        </div>\n"
        + "        \n"
        + "        <div class=" + "\"table-of-contents\">" + "\n"
        + "            <h2>" + "Table of Contents</" + "h2>")

  /** The opening of a volume's block: its escaped name as `<h3>`. */
  function VolumeNavOpen(u: (), v: Volume): JsString
  {
    Lit("\n"
        + "            <div " + "class=\"volume-nav\">\n"
        + "                <h3>") + EscapeHtml(v.name) + Lit("</h3>")
  }

  /** One link per chapter, to its page, with the escaped title. */
  function ChapterLink(u: (), k: nat, v: Volume, c: Chapter): JsString
  {
    Lit("\n"
        + "                <a " + "href=\"") + PageName(v.index, c.index) + Lit("\">") + EscapeHtml(c.title) + Lit("</a>")
  }

  function VolumeNavClose(u: (), v: Volume): JsString
  {
    Lit("\n            </div>")
  }

  const INDEX_END: JsString :=
    Lit("\n"
        + "        </div>\n"
        + "    </div>\n"
        + "</body>\n"
        + "</html>")

  function TableOfContents(vols: seq<Volume>): JsString
  {
    VolumesOut((), vols, VolumeNavOpen, ChapterLink, VolumeNavClose)
  }

  /** The page `generateIndex` builds. */
  function IndexPage(book: Book): JsString
  {
    IndexHeader(book) + IndexDescription(book.description) + TOC_START + TableOfContents(book.content) + INDEX_END
  }

  /** The link to chapter `j` of volume `i`, to its own page and with its
      escaped title, is on the index page right after the links and
      volume headings of everything before it: the table of contents
      lists every chapter, in reading order. */
  lemma IndexLinksInOrder(book: Book, i: nat, j: nat)
    requires i < |book.content| && j < |book.content[i].chapters|
    ensures var vols := book.content;
      var v := vols[i];
      var c := v.chapters[j];
      var k := ChapterTotal(vols[..i]);
      IndexHeader(book) + IndexDescription(book.description) + TOC_START
      + (VolumesOut((), vols[..i], VolumeNavOpen, ChapterLink, VolumeNavClose) + VolumeNavOpen((), v)
         + ChaptersOut((), k, v, v.chapters[..j], ChapterLink))
      + ChapterLink((), k + j, v, c)
      <= IndexPage(book)
  {
    WrappedPrefix(IndexHeader(book) + IndexDescription(book.description) + TOC_START, INDEX_END,
                  (), book.content, i, j, VolumeNavOpen, ChapterLink, VolumeNavClose);
  }

  /** The `html +=` steps of `generateIndex`. */
  method GenerateIndex(book: Book) returns (html: JsString)
    ensures html == IndexPage(book)
  {
    html := IndexHeader(book);
    if book.description != [] {
      html := html + IndexDescription(book.description);
    } else {
      assert html + [] == html;
    }
    html := html + TOC_START;
    html := Walk((), html, book.content, VolumeNavOpen, ChapterLink, VolumeNavClose);
    html := html + INDEX_END;
  }

  // ---------------------------------------------------------------------
  // generateChapter
  // ---------------------------------------------------------------------

  /** `<div class="navigation">` and the link to the index page. */
  const NAV_START: JsString :=
    Lit("<div class=" + "\"navigation\">\n"
        + "            <a href=" + "\"index.html\" class=" + "\"nav-button\">← " + "Table of Contents</" + "a>")

  const NAV_END: JsString := Lit("\n        </div>")

  function PrevLinkText(link: Option<Link>): JsString
  {
    match link
    case None => []
    case Some(l) =>
      Lit("\n            <a href=\"") + PageName(l.volume, l.chapter)
      + Lit("\" class=" + "\"nav-button\">← " + "Previous</a>")
  }

  function NextLinkText(link: Option<Link>): JsString
  {
    match link
    case None => []
    case Some(l) =>
      Lit("\n            <a href=\"") + PageName(l.volume, l.chapter)
      + Lit("\" class=" + "\"nav-button\">Next →" + "</a>")
  }

  /** The navigation block around the Previous and Next links that exist. */
  function NavText(prev: Option<Link>, next: Option<Link>): JsString
  {
    NAV_START + PrevLinkText(prev) + NextLinkText(next) + NAV_END
  }

  /** The navigation block of chapter `c` of volume `v`: the index link,
      then the Previous and Next links that exist. The page holds it
      twice, above and below the text. */
  function NavBlock(book: Book, v: Volume, c: Chapter): JsString
  {
    NavText(PrevLink(v, c.index), NextLink(book, v, c.index))
  }

  function PageHead(bookTitle: JsString, chapterTitle: JsString): JsString
  {
    DOC_START + EscapeHtml(chapterTitle) + Lit(" - ") + EscapeHtml(bookTitle) + DOC_TOP
  }

  function Headings(v: Volume, c: Chapter): JsString
  {
    Lit("\n        \n        <h1>") + EscapeHtml(c.title)
    + Lit("</h1>\n        <h2>") + EscapeHtml(v.name) + Lit("</h2>")
  }

  const PARAGRAPH_BREAK: JsString := Lit("\n        ")

  /** One piece of `chapter_content.split('\n\n')`: a paragraph of its
      trimmed, escaped text on its own line, or nothing when it is blank. */
  function HtmlParagraph(piece: JsString): JsString
  {
    if Trim(piece) != [] then PARAGRAPH_BREAK + P_OPEN + EscapeHtml(Trim(piece)) + P_CLOSE else []
  }

  const BOTTOM_GAP: JsString := Lit("\n        \n        ")

  const PAGE_END: JsString :=
    Lit("\n"
        + "    </div>\n"
        + "</body>\n"
        + "</html>")

  /** Everything above the text: the head, the navigation and the two
      headings. */
  function ChapterTop(book: Book, v: Volume, c: Chapter): JsString
  {
    PageHead(book.title, c.title) + NavBlock(book, v, c) + Headings(v, c)
  }

  /** Everything below the text: the navigation again and the end of the
      document. */
  function ChapterBottom(book: Book, v: Volume, c: Chapter): JsString
  {
    BOTTOM_GAP + NavBlock(book, v, c) + PAGE_END
  }

  /** The page `generateChapter(volume, chapter)` builds. */
  function ChapterPage(book: Book, v: Volume, c: Chapter): JsString
  {
    ChapterTop(book, v, c) + ConcatMap(HtmlParagraph, Split(c.content, BLANK_LINE)) + ChapterBottom(book, v, c)
  }

  /** The lookups of `generateChapter`: the chapter's position found by
      its index, the neighbouring chapters, and the first chapter of the
      next volume when the chapter is the last of its own. */
  method ChapterLinks(book: Book, v: Volume, c: Chapter) returns (prev: Option<Link>, next: Option<Link>)
    ensures prev == PrevLink(v, c.index) && next == NextLink(book, v, c.index)
  {
    var chapterIndex := Position(v, c.index);
    var prevChapter: Option<Chapter> := if chapterIndex > 0 then Some(v.chapters[chapterIndex - 1]) else None;
    var nextChapter: Option<Chapter> := if chapterIndex < |v.chapters| - 1 then Some(v.chapters[chapterIndex + 1]) else None;
    var nextVolume: Option<Volume> := None;
    if nextChapter == None {
      var volumeIndex := VolumePosition(book.content, v.index);
      if volumeIndex < |book.content| - 1 && book.content[volumeIndex + 1].chapters != [] {
        nextVolume := Some(book.content[volumeIndex + 1]);
      }
    }
    prev := None;
    if prevChapter.Some? {
      prev := Some(Link(v.index, prevChapter.value.index));
    }
    next := None;
    if nextChapter.Some? {
      next := Some(Link(v.index, nextChapter.value.index));
    } else if nextVolume.Some? {
      next := Some(Link(nextVolume.value.index, nextVolume.value.chapters[0].index));
    }
  }

  /** The `html +=` steps of one navigation block. */
  method AppendNav(html: JsString, prev: Option<Link>, next: Option<Link>) returns (out: JsString)
    ensures out == html + NavText(prev, next)
  {
    out := html + NAV_START;
    out := out + PrevLinkText(prev);
    out := out + NextLinkText(next);
    out := out + NAV_END;
    AppendAssoc(html, NAV_START, PrevLinkText(prev));
    AppendAssoc(html, NAV_START + PrevLinkText(prev), NextLinkText(next));
    AppendAssoc(html, NAV_START + PrevLinkText(prev) + NextLinkText(next), NAV_END);
  }

  /** The paragraph loop of `generateChapter`. */
  method AppendParagraphs(html: JsString, pieces: seq<JsString>) returns (out: JsString)
    ensures out == html + ConcatMap(HtmlParagraph, pieces)
  {
    out := html;
    var i := 0;
    while i < |pieces|
      invariant i <= |pieces|
      invariant out == html + ConcatMap(HtmlParagraph, pieces[..i])
    {
      assert pieces[..i + 1][..i] == pieces[..i];
      AppendAssoc(html, ConcatMap(HtmlParagraph, pieces[..i]), HtmlParagraph(pieces[i]));
      if Trim(pieces[i]) != [] {
        out := out + (PARAGRAPH_BREAK + P_OPEN + EscapeHtml(Trim(pieces[i])) + P_CLOSE);
      } else {
        assert out + [] == out;
      }
      i := i + 1;
    }
    assert pieces[..i] == pieces;
  }

  /** `generateChapter(volume, chapter)`: the lookups, then the `html +=`
      steps. */
  method GenerateChapter(book: Book, v: Volume, c: Chapter) returns (html: JsString)
    ensures html == ChapterPage(book, v, c)
  {
    var prev, next := ChapterLinks(book, v, c);
    html := PageHead(book.title, c.title);
    html := AppendNav(html, prev, next);
    html := html + Headings(v, c);
    ghost var top := html;
    assert top == ChapterTop(book, v, c);
    html := AppendParagraphs(html, Split(c.content, BLANK_LINE));
    ghost var middle := html;
    html := html + BOTTOM_GAP;
    html := AppendNav(html, prev, next);
    html := html + PAGE_END;
    AppendAssoc(middle, BOTTOM_GAP, NavBlock(book, v, c));
    AppendAssoc(middle, BOTTOM_GAP + NavBlock(book, v, c), PAGE_END);
  }

  // ---------------------------------------------------------------------
  // convert: the archive entries
  // ---------------------------------------------------------------------

  function PageEntry(book: Book, k: nat, v: Volume, c: Chapter): seq<Entry>
  {
    [TextEntry(PageName(v.index, c.index), ChapterPage(book, v, c))]
  }

  /** `styles.css`, `index.html`, then one page per chapter in traversal
      order; `css` is the text `generateCSS` returns. */
  function HtmlEntries(book: Book, css: JsString): seq<Entry>
  {
    [TextEntry(Lit("styles.css"), css), TextEntry(Lit("index.html"), IndexPage(book))] + ChapterPages(book)
  }

  /** The chapter loop: one page per chapter, in traversal order. */
  function ChapterPages(book: Book): seq<Entry>
  {
    VolumesOut(book, book.content, NoOut, PageEntry, NoOut)
  }

  /** One `zip.file(fileName, chapterHtml)` call of the chapter loop. */
  method ChapterFile(book: Book, k: nat, volume: Volume, chapter: Chapter) returns (page: seq<Entry>)
    ensures page == PageEntry(book, k, volume, chapter)
  {
    var fileName := PageName(volume.index, chapter.index);
    var chapterHtml := GenerateChapter(book, volume, chapter);
    page := [TextEntry(fileName, chapterHtml)];
  }

  /** The inner loop of the chapter pages: one `zip.file` per chapter of
      `volume`, whose first chapter is chapter number `k` of the book. */
  method AddVolumePages(book: Book, acc: seq<Entry>, k: nat, volume: Volume) returns (entries: seq<Entry>)
    ensures entries == acc + ChaptersOut(book, k, volume, volume.chapters, PageEntry)
  {
    entries := acc;
    var j := 0;
    while j < |volume.chapters|
      invariant j <= |volume.chapters|
      invariant entries == acc + ChaptersOut(book, k, volume, volume.chapters[..j], PageEntry)
    {
      var page := ChapterFile(book, k + j, volume, volume.chapters[j]);
      ChaptersStep(book, k, volume, j, PageEntry);
      AppendAssoc(acc, ChaptersOut(book, k, volume, volume.chapters[..j], PageEntry), page);
      entries := entries + page;
      j := j + 1;
    }
    assert volume.chapters[..j] == volume.chapters;
  }

  /** The chapter loop of `convert`: one `zip.file` per chapter with the
      page `generateChapter` returns. */
  method AddChapterPages(book: Book, acc: seq<Entry>) returns (entries: seq<Entry>)
    ensures entries == acc + VolumesOut(book, book.content, NoOut, PageEntry, NoOut)
  {
    entries := acc;
    var i := 0;
    var k := 0;
    while i < |book.content|
      invariant i <= |book.content|
      invariant k == ChapterTotal(book.content[..i])
      invariant entries == acc + VolumesOut(book, book.content[..i], NoOut, PageEntry, NoOut)
    {
      BareVolumesStep(book, book.content, i, PageEntry);
      AppendAssoc(acc, VolumesOut(book, book.content[..i], NoOut, PageEntry, NoOut), ChaptersOut(book, k, book.content[i], book.content[i].chapters, PageEntry));
      entries := AddVolumePages(book, entries, k, book.content[i]);
      k := k + |book.content[i].chapters|;
      i := i + 1;
    }
    assert book.content[..i] == book.content;
  }

  /** The `zip.file` calls of `convert`. */
  method Convert(book: Book, css: JsString) returns (entries: seq<Entry>)
    ensures entries == HtmlEntries(book, css)
  {
    entries := [TextEntry(Lit("styles.css"), css)];
    var indexHtml := GenerateIndex(book);
    entries := entries + [TextEntry(Lit("index.html"), indexHtml)];
    entries := AddChapterPages(book, entries);
  }

  /** The download name: the file stem of the title and `_html.zip`. */
  function ZipName(title: JsString): (r: JsString)
    ensures |r| == |title| + 9
    ensures r[..|title|] == FileStem(title) && r[|title|..] == Lit("_html.zip")
  {
    FileStem(title) + Lit("_html.zip")
  }

  /** Chapter page `k` is named after the `k`-th chapter in traversal
      order and holds that chapter's page. */
  lemma PageEntriesLayout(book: Book)
    ensures |ChapterPages(book)| == ChapterTotal(book.content)
    ensures forall k :: 0 <= k < ChapterTotal(book.content) ==>
      var v := Traversal(book.content)[k].0;
      var c := Traversal(book.content)[k].1;
      ChapterPages(book)[k] == TextEntry(PageName(v.index, c.index), ChapterPage(book, v, c))
  {
    var tr := Traversal(book.content);
    WalkIsIndexed(book, book.content, PageEntry);
    IndexedOutSingletons(book, 0, tr, PageEntry);
    forall k | 0 <= k < ChapterTotal(book.content)
      ensures ChapterPages(book)[k] == TextEntry(PageName(tr[k].0.index, tr[k].1.index), ChapterPage(book, tr[k].0, tr[k].1))
    {
      PageAt(book, tr, k);
    }
  }

  lemma PageAt(book: Book, tr: seq<(Volume, Chapter)>, k: nat)
    requires k < |tr| && |ChapterPages(book)| == |tr|
    requires ChapterPages(book) == IndexedOut(book, 0, tr, PageEntry)
    requires forall j :: 0 <= j < |tr| ==> IndexedOut(book, 0, tr, PageEntry)[j] == PageEntry(book, 0 + j, tr[j].0, tr[j].1)[0]
    ensures ChapterPages(book)[k] == TextEntry(PageName(tr[k].0.index, tr[k].1.index), ChapterPage(book, tr[k].0, tr[k].1))
  {
    var j := 0 + k;
    assert j == k;
    assert ChapterPages(book)[k] == PageEntry(book, j, tr[k].0, tr[k].1)[0];
  }

  /** The archive opens with the style sheet and the index page; the rest
      is the chapter pages, one per chapter. */
  lemma HtmlEntriesFront(book: Book, css: JsString)
    ensures var es := HtmlEntries(book, css);
      && |es| == 2 + ChapterTotal(book.content)
      && es[0] == TextEntry(Lit("styles.css"), css)
      && es[1] == TextEntry(Lit("index.html"), IndexPage(book))
      && es[2..] == ChapterPages(book)
  {
    PageEntriesLayout(book);
  }

  /** `30 + (processedChapters / totalChapters) * 60` after chapter `k`:
      strictly increasing, above 30 and at most 90. */
  lemma HtmlProgress(k: nat, n: nat)
    requires 1 <= k <= n
    ensures 30.0 < ChapterProgress(30.0, 60.0, k, n) <= 90.0
    ensures k < n ==> ChapterProgress(30.0, 60.0, k, n) < ChapterProgress(30.0, 60.0, k + 1, n)
  {
    ProgressMonotone(30.0, 60.0, 0, k, n);
    if k < n {
      ProgressMonotone(30.0, 60.0, k, k + 1, n);
    }
  }

  // ---------------------------------------------------------------------
  // The paragraphs of a chapter page
  // ---------------------------------------------------------------------

  /** Each piece with text gives one paragraph, and the escaped text adds
      no `<`: two `<` per such piece, as in the EPUB chapter file. */
  lemma {:induction false} HtmlParagraphCount(pieces: seq<JsString>)
    ensures Count(LT, ConcatMap(HtmlParagraph, pieces)) == 2 * NonBlankCount(pieces)
    decreases |pieces|
  {
    if pieces == [] {
      CountAbsent(LT, []);
    } else {
      assert pieces == [pieces[0]] + pieces[1..];
      ConcatMapCons(HtmlParagraph, pieces[0], pieces[1..]);
      HtmlParagraphCount(pieces[1..]);
      CountAppend(LT, HtmlParagraph(pieces[0]), ConcatMap(HtmlParagraph, pieces[1..]));
      HtmlParagraphLt(pieces[0]);
    }
  }

  /** A paragraph holds the `<` of its two tags and no other. */
  lemma HtmlParagraphLt(piece: JsString)
    ensures Count(LT, HtmlParagraph(piece)) == if Trim(piece) != [] then 2 else 0
  {
    var t := Trim(piece);
    if t != [] {
      HtmlEscapeSafe(t);
      CountAbsent(LT, EscapeHtml(t));
      CountAbsent(LT, PARAGRAPH_BREAK);
      CountLtTags();
      CountAppend(LT, PARAGRAPH_BREAK, P_OPEN);
      CountAppend(LT, PARAGRAPH_BREAK + P_OPEN, EscapeHtml(t));
      CountAppend(LT, PARAGRAPH_BREAK + P_OPEN + EscapeHtml(t), P_CLOSE);
    } else {
      CountAbsent(LT, []);
    }
  }

  lemma HtmlParagraphsAsEpub(content: JsString)
    ensures Count(LT, ConcatMap(HtmlParagraph, Split(content, BLANK_LINE))) == Count(LT, FormatChapterContent(content))
  {
    HtmlParagraphCount(Split(content, BLANK_LINE));
    FormatChapterContentParagraphs(content);
  }
}
